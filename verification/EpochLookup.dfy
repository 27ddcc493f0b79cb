/** When the height index of a node serves the look-up of the previous epoch in header validation. */
module EpochLookup {
  import opened Ledger
  import opened BlockTree
  import opened Blockchain
  import opened SignificantBits
  import opened PotIterations
  import opened HeaderChain
  import opened EpochRules
  import opened HeaderRules
  import opened Prefixes
  import opened AncestorLookup
  import opened Adjustments
  import opened HeaderValidation
  import DA = DifficultyAdjustment

  type Headers = map<Hash, Record>

  /** Every stored block has its header record. */
  ghost predicate HeadersOf(m: Tree, headers: Headers) {
    forall k :: HeaderAt(m, headers, k)
  }

  ghost predicate HeaderAt(m: Tree, headers: Headers, k: Hash) {
    k in m ==> k in headers && headers[k].hash == k && headers[k].height == m[k].height
  }

  /** The records along a chain. */
  ghost function Records(headers: Headers, chain: seq<Block>): (r: seq<Record>)
    requires forall i :: 0 <= i < |chain| ==> chain[i].hash in headers
    ensures |r| == |chain| && forall i :: 0 <= i < |chain| ==> r[i] == headers[chain[i].hash]
  {
    seq(|chain|, i requires 0 <= i < |chain| => headers[chain[i].hash])
  }

  /** The records that the height index names. */
  ghost function IndexOf(m: Tree, headers: Headers, heights: map<nat, Hash>): (r: DA.Index)
    requires HeadersOf(m, headers)
    ensures forall h :: h in r <==> h in heights && heights[h] in m
    ensures forall h :: h in r ==> heights[h] in headers && r[h] == headers[heights[h]]
  {
    assert forall h :: h in heights ==> HeaderAt(m, headers, heights[h]);
    map h | h in heights && heights[h] in m :: headers[heights[h]]
  }

  lemma RecordsStored(m: Tree, headers: Headers, chain: seq<Block>)
    requires HeadersOf(m, headers) && Stored(m, chain)
    ensures forall i :: 0 <= i < |chain| ==>
      chain[i].hash in headers && headers[chain[i].hash].hash == chain[i].hash
  {
    forall i | 0 <= i < |chain|
      ensures chain[i].hash in headers && headers[chain[i].hash].hash == chain[i].hash
    {
      assert StoredAt(m, chain, i) && HeaderAt(m, headers, chain[i].hash);
    }
  }

  /** Reading a height gives the chain's own record exactly if the index leads to its own block. */
  lemma RecordMatches(m: Tree, headers: Headers, heights: map<nat, Hash>, chain: seq<Block>, h: nat)
    requires WellFormed(m) && HeadersOf(m, headers) && Stored(m, chain) && h < |chain| && chain[h].hash in headers
    ensures var index := IndexOf(m, headers, heights);
      h in index && index[h] == headers[chain[h].hash] <==> AtHeight(m, heights, h) == Some(chain[h])
  {
    assert StoredAt(m, chain, h) && HeaderAt(m, headers, chain[h].hash);
    if h in heights { assert HeaderAt(m, headers, heights[h]); }
  }

  lemma EntryRead(m: Tree, headers: Headers, heights: map<nat, Hash>, main: seq<Block>, chain: seq<Block>, fork: int,
                  h: nat)
    requires WellFormed(m) && HeadersOf(m, headers) && Stored(m, main) && Stored(m, chain) && Indexed(heights, main)
    requires IsFork(main, chain, fork) && forall i :: 0 <= i < |chain| ==> chain[i].hash in headers
    ensures DA.ReadsOwn(Records(headers, chain), IndexOf(m, headers, heights), h)
      <==> EntryKept(heights, main, chain, fork, h)
  {
    if h < |chain| {
      RecordMatches(m, headers, heights, chain, h);
      EntryExact(m, heights, main, chain, fork, h);
    }
  }

  lemma NamedExact(m: Tree, headers: Headers, heights: map<nat, Hash>, chain: seq<Block>)
    requires WellFormed(m) && HeadersOf(m, headers) && Stored(m, chain) && chain != []
    requires forall i :: 0 <= i < |chain| ==> chain[i].hash in headers
    ensures DA.Named(Records(headers, chain), IndexOf(m, headers, heights), |chain| - 1)
      <==> OnIndex(heights, chain[|chain| - 1])
  {
    var last := |chain| - 1;
    assert StoredAt(m, chain, last) && HeaderAt(m, headers, chain[last].hash);
    if last in heights { assert HeaderAt(m, headers, heights[last]); }
  }

  lemma FollowedValues(m: Tree, headers: Headers, heights: map<nat, Hash>, main: seq<Block>, chain: seq<Block>,
                       fork: int, target: nat, count: nat)
    requires WellFormed(m) && HeadersOf(m, headers) && Stored(m, main) && Stored(m, chain) && Indexed(heights, main)
    requires IsFork(main, chain, fork) && chain != []
    requires forall i :: 0 <= i < |chain| ==> chain[i].hash in headers
    ensures DA.Followed(Records(headers, chain), IndexOf(m, headers, heights), |chain| - 1, target, count)
      <==> (OnIndex(heights, chain[|chain| - 1]) ==> RangeKept(heights, main, chain, fork, target, count))
  {
    var records, index := Records(headers, chain), IndexOf(m, headers, heights);
    NamedExact(m, headers, heights, chain);
    forall h: nat ensures DA.ReadsOwn(records, index, h) <==> EntryKept(heights, main, chain, fork, h) {
      EntryRead(m, headers, heights, main, chain, fork, h);
    }
  }

  /** In a reachable state: the heights of a range can be read from the index for a search from `prev` exactly if the
      index does not name `prev`, or all entries of the range are right. */
  lemma FollowedExact(c: Blockchain, headers: Headers, prev: Block, main: seq<Block>, chain: seq<Block>, fork: int,
                      target: nat, count: nat)
    requires Branches(c, prev, main, chain, fork) && HeadersOf(c.records, headers)
    ensures forall i :: 0 <= i < |chain| ==> chain[i].hash in headers
    ensures DA.Followed(Records(headers, chain), IndexOf(c.records, headers, c.heightToHash), prev.height,
                        target, count)
      <==> (OnIndex(c.heightToHash, prev) ==> RangeKept(c.heightToHash, main, chain, fork, target, count))
  {
    BranchFacts(c, prev, main, chain, fork);
    RecordsStored(c.records, headers, chain);
    FollowedValues(c.records, headers, c.heightToHash, main, chain, fork, target, count);
  }

  /** So the index serves any range for a block that is not above the peak; and for a block above it that the index
      still names, a range that starts at or below the peak exactly if it ends at or below the fork. */
  lemma ServedUpToPeak(c: Blockchain, headers: Headers, prev: Block, main: seq<Block>, chain: seq<Block>, fork: int,
                       target: nat, count: nat)
    requires Branches(c, prev, main, chain, fork) && HeadersOf(c.records, headers)
    requires 0 < count && target + count <= |chain| && target <= c.peak.value.height
    ensures forall i :: 0 <= i < |chain| ==> chain[i].hash in headers
    ensures DA.Followed(Records(headers, chain), IndexOf(c.records, headers, c.heightToHash), prev.height,
                        target, count)
      <==> (OnIndex(c.heightToHash, prev) ==> target + count <= fork + 1)
    ensures OnIndex(c.heightToHash, prev) && prev.height <= c.peak.value.height ==> target + count <= fork + 1
  {
    BranchFacts(c, prev, main, chain, fork);
    FollowedExact(c, headers, prev, main, chain, fork, target, count);
    KeptExact(c.heightToHash, main, chain, fork, target, count);
    if OnIndex(c.heightToHash, prev) && |chain| <= |main| {
      OnPeakChain(c.records, c.heightToHash, main, chain, fork);
    }
  }

  // ---- what header validation reads ----

  /** The heights that an adjustment after block `h` reads: `count` of them from `target` on; to be unfolded only where
      it is needed. */
  ghost predicate Reads(cn: Constants, h: nat, target: int, count: int) {
    forall use :: ReadsFor(cn, h, target, count, use)
  }

  ghost predicate ReadsFor(cn: Constants, h: nat, target: int, count: int, use: bool) {
    && cn.epoch > 0
    && (if DA.Mark(cn, h) <= cn.maxSlotBlocks then target == 0 && count == 1
        else target == DA.Mark(cn, h) - cn.maxSlotBlocks - 1 && count == 3 * cn.maxSlotBlocks + cn.minBlocks + 3)
  }

  lemma FollowedSame(a: seq<Record>, b: seq<Record>, index: DA.Index, target: nat, count: nat)
    requires Same(a, b, |a|) && a != [] && target + count <= |a|
    ensures DA.Followed(a, index, |a| - 1, target, count) <==> DA.Followed(b, index, |a| - 1, target, count)
  {
    assert SameAt(a, b, |a|, |a| - 1);
    forall h: nat | target <= h < target + count ensures DA.ReadsOwn(a, index, h) <==> DA.ReadsOwn(b, index, h) {
      assert SameAt(a, b, |a|, h);
    }
  }

  /** Block `i` has a new slot after a block that can end an epoch, so its parameters are adjusted. */
  ghost predicate Adjusting(cn: Constants, records: seq<Record>, i: nat) {
    0 < i < |records| && records[i].slots != [] && CanFinishEpoch(cn, records, i - 1)
  }

  lemma ReadRange(cn: Constants, records: seq<Record>, i: nat) returns (target: nat, count: nat)
    requires Sane(cn) && ValidUpTo(cn, records, i) && Adjusting(cn, records, i)
    ensures Reads(cn, i - 1, target, count) && 0 < count && target + count <= i - 1
  {
    DA.MarkFacts(cn, records, i, i - 1);
    var mark := DA.Mark(cn, i - 1);
    target := if mark <= cn.maxSlotBlocks then 0 else mark - cn.maxSlotBlocks - 1;
    count := if mark <= cn.maxSlotBlocks then 1 else 3 * cn.maxSlotBlocks + cn.minBlocks + 3;
  }

  lemma ServesExact(cn: Constants, own: seq<Record>, records: seq<Record>, index: DA.Index, target: nat, count: nat)
    requires own != [] && Same(own, records, |own|) && Adjusting(cn, records, |own| + 1)
    requires Reads(cn, |own|, target, count) && target + count <= |own|
    ensures IndexServes(cn, records, index, |own| + 1) <==> DA.Followed(own, index, |own| - 1, target, count)
  {
    assert ReadsFor(cn, |own|, target, count, true);
    FollowedSame(own, records, index, target, count);
  }

  lemma ReadsOne(cn: Constants, h: nat, a: int, m: int, b: int, n: int)
    requires Reads(cn, h, a, m) && Reads(cn, h, b, n)
    ensures a == b && m == n
  {
    assert ReadsFor(cn, h, a, m, true) && ReadsFor(cn, h, b, n, true);
  }

  /** The index of a node serves the validation of every header whose grandparent `prev` is not above the peak. If it
      is above and the index still names it, a look-up that starts at or below the peak is served exactly if it ends
      at or below the fork. */
  lemma AdjustmentServed(cn: Constants, c: Blockchain, headers: Headers, prev: Block, main: seq<Block>,
                         chain: seq<Block>, fork: int, own: seq<Record>, index: DA.Index, records: seq<Record>)
    requires Sane(cn) && Branches(c, prev, main, chain, fork) && HeadersOf(c.records, headers)
    requires forall i :: 0 <= i < |chain| ==> chain[i].hash in headers
    requires own == Records(headers, chain) && index == IndexOf(c.records, headers, c.heightToHash)
    requires Same(own, records, |own|) && ValidUpTo(cn, records, |own| + 1) && |own| + 1 < |records|
    ensures prev.height <= c.peak.value.height ==> IndexServes(cn, records, index, |own| + 1)
    ensures forall target, count ::
      Adjusting(cn, records, |own| + 1) && Reads(cn, |own|, target, count) && target <= c.peak.value.height ==>
        (IndexServes(cn, records, index, |own| + 1)
         <==> (OnIndex(c.heightToHash, prev) ==> target + count <= fork + 1))
  {
    if Adjusting(cn, records, |own| + 1) {
      var target, count := ReadRange(cn, records, |own| + 1);
      ServesExact(cn, own, records, index, target, count);
      if target <= c.peak.value.height { ServedUpToPeak(c, headers, prev, main, chain, fork, target, count); }
      forall a, m | Reads(cn, |own|, a, m) ensures a == target && m == count {
        ReadsOne(cn, |own|, target, count, a, m);
      }
    }
  }

  // ---- the first epoch ----

  /** The header records of the chain of the stored block `k` are valid, and carry its weight. */
  ghost predicate ValidHeaderAt(cn: Constants, m: Tree, headers: Headers, k: Hash)
    requires WellFormed(m)
  {
    k in m ==>
      var chain := Chain(m, m[k]);
      && (forall i :: 0 <= i < |chain| ==> chain[i].hash in headers)
      && headers[k].weight == m[k].weight && m[k].height < cn.epoch
      && ValidUpTo(cn, Records(headers, chain), |chain|)
  }

  lemma WeightOfHeader(cn: Constants, m: Tree, headers: Headers, k: Hash)
    requires Sane(cn) && WellFormed(m) && k in m && ValidHeaderAt(cn, m, headers, k)
    ensures WeightByHeight(m, cn.difficultyStarting, k)
  {
    var chain := Chain(m, m[k]);
    FirstEpochWeight(cn, Records(headers, chain), |chain|, |chain| - 1);
  }

  /** While all blocks are in the first epoch, a higher block is a heavier one; so no look-up fails. */
  lemma FirstEpochGraded(cn: Constants, m: Tree, headers: Headers)
    requires Sane(cn) && WellFormed(m) && forall k :: ValidHeaderAt(cn, m, headers, k)
    ensures Graded(m)
  {
    forall k ensures WeightByHeight(m, cn.difficultyStarting, k) {
      if k in m { WeightOfHeader(cn, m, headers, k); }
    }
    EquallyHard(m, cn.difficultyStarting);
  }
}
