/** Finding ancestors by height: through the height index if it names the block to start from, and by following
    parents otherwise. The index is that of the peak's chain, with entries above the peak left from longer chains
    that were abandoned; so the first way is right only up to a point, which is given here exactly. */
module AncestorLookup {
  import opened Ledger
  import opened SignificantBits
  import opened LedgerChain
  import opened BlockTree
  import opened BodyValidation
  import opened Blockchain
  import opened Node

  function Min(a: nat, b: nat): nat { if a < b then a else b }

  ghost predicate Has(m: Tree, b: Block) { b.hash in m && m[b.hash] == b }

  /** The height index names `prev` at its own height. */
  predicate OnIndex(heights: map<nat, Hash>, prev: Block) {
    prev.height in heights && heights[prev.height] == prev.hash
  }

  /** The block the index names at a height, if it names a stored one. */
  function AtHeight(m: Tree, heights: map<nat, Hash>, h: nat): Option<Block> {
    if h in heights && heights[h] in m then Some(m[heights[h]]) else None
  }

  // ---- the two ways ----

  /** What reading `count` heights from the index yields: the blocks named, or nothing if one is missing. */
  ghost predicate ReadOff(m: Tree, heights: map<nat, Hash>, target: nat, count: nat, r: Option<seq<Block>>) {
    match r
    case None => exists h :: target <= h < target + count && AtHeight(m, heights, h).None?
    case Some(list) => |list| == count && forall h :: NamedAt(m, heights, target, list, h)
  }

  ghost predicate NamedAt(m: Tree, heights: map<nat, Hash>, target: nat, list: seq<Block>, h: nat) {
    target <= h < target + |list| ==> AtHeight(m, heights, h) == Some(list[h - target])
  }

  method FetchByIndex(m: Tree, heights: map<nat, Hash>, target: nat, count: nat) returns (r: Option<seq<Block>>)
    ensures ReadOff(m, heights, target, count, r)
  {
    var list := [];
    for h := target to target + count
      invariant ReadOff(m, heights, target, h - target, Some(list))
    {
      if h !in heights || heights[h] !in m {
        assert AtHeight(m, heights, h).None?;
        return None;
      }
      var more := list + [m[heights[h]]];
      forall k: nat ensures NamedAt(m, heights, target, more, k) { assert NamedAt(m, heights, target, list, k); }
      list := more;
    }
    r := Some(list);
  }

  /** The part of `chain` at heights `target` to `target + count - 1`. */
  function Slice(chain: seq<Block>, target: nat, count: nat): seq<Block> {
    chain[Min(target, |chain|)..Min(target + count, |chain|)]
  }

  method FetchByParents(m: Tree, prev: Block, target: nat, count: nat, ghost chain: seq<Block>) returns (r: seq<Block>)
    requires Stored(m, chain) && chain != [] && chain[|chain| - 1] == prev
    ensures r == Slice(chain, target, count)
  {
    ghost var high := Min(target + count, |chain|);
    var curr, found := prev, [];
    assert StoredAt(m, chain, |chain| - 1);
    while curr.height >= target
      invariant curr.height < |chain| && chain[curr.height] == curr && (curr == prev || target <= curr.height + 1)
      invariant |found| == if curr.height + 1 < high then high - (curr.height + 1) else 0
      invariant forall j :: 0 <= j < |found| ==> found[j] == chain[high - 1 - j]
      decreases curr.height
    {
      if curr.height < target + count {
        found := found + [curr];
      }
      if curr.height == 0 {
        break;
      }
      assert StoredAt(m, chain, curr.height) && StoredAt(m, chain, curr.height - 1);
      curr := m[curr.prevHash];
    }
    r := seq(|found|, i requires 0 <= i < |found| => found[|found| - 1 - i]);
  }

  /** The code takes the fast way whenever the index names `prev`. */
  method GetBlocksAtHeight(m: Tree, heights: map<nat, Hash>, prev: Block, target: nat, count: nat)
    returns (r: Option<seq<Block>>)
    requires WellFormed(m) && Has(m, prev)
    ensures !OnIndex(heights, prev) ==> r == Some(Slice(Chain(m, prev), target, count))
    ensures OnIndex(heights, prev) ==> ReadOff(m, heights, target, count, r)
  {
    if OnIndex(heights, prev) {
      r := FetchByIndex(m, heights, target, count);
    } else {
      ChainStored(m, prev);
      var list := FetchByParents(m, prev, target, count, Chain(m, prev));
      r := Some(list);
    }
  }

  // ---- what the index says ----

  lemma IndexedAt(m: Tree, heights: map<nat, Hash>, main: seq<Block>, h: nat)
    requires Stored(m, main) && Indexed(heights, main) && h < |main|
    ensures AtHeight(m, heights, h) == Some(main[h])
  {
    assert StoredAt(m, main, h);
  }

  /** A height up to the peak is looked up right exactly if it is not above the fork; one above the peak, exactly if
      an entry for the ancestor is left there. */
  lemma EntryExact(m: Tree, heights: map<nat, Hash>, main: seq<Block>, chain: seq<Block>, fork: int, h: nat)
    requires WellFormed(m) && Stored(m, main) && Stored(m, chain) && Indexed(heights, main)
    requires IsFork(main, chain, fork) && h < |chain|
    ensures AtHeight(m, heights, h) == Some(chain[h]) <==> h <= fork || (h >= |main| && OnIndex(heights, chain[h]))
  {
    assert StoredAt(m, chain, h);
    if h < |main| {
      IndexedAt(m, heights, main, h);
      if h <= fork { AgreesBelow(main, chain, fork, h); }
    } else if h in heights && heights[h] in m {
      assert AtHeight(m, heights, h) == Some(m[heights[h]]);
    }
  }

  ghost predicate MatchAt(chain: seq<Block>, target: nat, r: seq<Block>, h: nat) {
    target <= h < target + |r| && h < |chain| ==> r[h - target] == chain[h]
  }

  lemma SliceMatches(chain: seq<Block>, target: nat, r: seq<Block>)
    requires target + |r| <= |chain|
    ensures r == Slice(chain, target, |r|) <==> forall h :: MatchAt(chain, target, r, h)
  {
    if forall h :: MatchAt(chain, target, r, h) {
      forall i | 0 <= i < |r| ensures r[i] == chain[target + i] { assert MatchAt(chain, target, r, target + i); }
    }
  }

  /** The entry for the chain's height `h` is right: it is at or below the fork, or above the peak and left there. */
  ghost predicate EntryKept(heights: map<nat, Hash>, main: seq<Block>, chain: seq<Block>, fork: int, h: nat) {
    h < |chain| ==> h <= fork || (h >= |main| && OnIndex(heights, chain[h]))
  }

  ghost predicate RangeKept(heights: map<nat, Hash>, main: seq<Block>, chain: seq<Block>, fork: int,
                            target: nat, count: nat)
  {
    forall h :: target <= h < target + count ==> EntryKept(heights, main, chain, fork, h)
  }

  /** For a range that starts at or below the peak that means it ends at or below the fork. */
  lemma KeptExact(heights: map<nat, Hash>, main: seq<Block>, chain: seq<Block>, fork: int, target: nat, count: nat)
    requires fork < |main| - 1 || |chain| <= |main|
    requires fork < |main| && 0 < count && target + count <= |chain| && target < |main|
    ensures RangeKept(heights, main, chain, fork, target, count) <==> target + count <= fork + 1
  {
    if target + count > fork + 1 {
      var h := if target <= fork then fork + 1 else target;
      assert target <= h < target + count && !EntryKept(heights, main, chain, fork, h);
    }
  }

  /** Exactly when what is read from the index is the range of the chain: when all entries of the range are right. */
  lemma RangeExact(m: Tree, heights: map<nat, Hash>, main: seq<Block>, chain: seq<Block>, fork: int,
                   target: nat, r: seq<Block>)
    requires WellFormed(m) && Stored(m, main) && Stored(m, chain) && Indexed(heights, main) && IsFork(main, chain, fork)
    requires target + |r| <= |chain| && ReadOff(m, heights, target, |r|, Some(r))
    ensures r == Slice(chain, target, |r|) <==> RangeKept(heights, main, chain, fork, target, |r|)
  {
    SliceMatches(chain, target, r);
    forall h: nat | target <= h < target + |r|
      ensures MatchAt(chain, target, r, h) <==> EntryKept(heights, main, chain, fork, h)
    {
      EntryExact(m, heights, main, chain, fork, h);
      assert NamedAt(m, heights, target, r, h);
    }
  }

  /** Exactly when the fast way is right, for ranges that start at or below the peak: the range must end at or below
      the point where `chain` leaves the peak's chain `main`. */
  lemma FastWayExact(m: Tree, heights: map<nat, Hash>, main: seq<Block>, chain: seq<Block>, fork: int,
                     target: nat, r: seq<Block>)
    requires WellFormed(m) && Stored(m, main) && Stored(m, chain) && Indexed(heights, main) && IsFork(main, chain, fork)
    requires fork < |main| - 1 || |chain| <= |main|
    requires r != [] && target + |r| <= |chain| && target < |main| && ReadOff(m, heights, target, |r|, Some(r))
    ensures r == Slice(chain, target, |r|) <==> target + |r| <= fork + 1
  {
    RangeExact(m, heights, main, chain, fork, target, r);
    KeptExact(heights, main, chain, fork, target, |r|);
  }

  /** Every block of the list but the first has the one before it as its parent. */
  ghost predicate Linked(r: seq<Block>) {
    forall i :: LinkedAt(r, i)
  }

  ghost predicate LinkedAt(r: seq<Block>, i: nat) {
    0 < i < |r| ==> r[i].prevHash == r[i - 1].hash
  }

  lemma MatchesAreLinked(m: Tree, chain: seq<Block>, target: nat, r: seq<Block>)
    requires Stored(m, chain) && r != [] && target + |r| <= |chain|
    requires forall h :: MatchAt(chain, target, r, h)
    ensures r[|r| - 1] == chain[target + |r| - 1] && Linked(r)
  {
    assert MatchAt(chain, target, r, target + |r| - 1);
    forall i: nat ensures LinkedAt(r, i) {
      if 0 < i < |r| {
        assert MatchAt(chain, target, r, target + i) && MatchAt(chain, target, r, target + i - 1);
        assert StoredAt(m, chain, target + i);
      }
    }
  }

  lemma {:induction false} LinkedDown(m: Tree, chain: seq<Block>, target: nat, r: seq<Block>, i: nat)
    requires Stored(m, chain) && i < |r| && target + |r| <= |chain|
    requires forall j :: 0 <= j < |r| ==> Has(m, r[j])
    requires Linked(r) && r[|r| - 1] == chain[target + |r| - 1]
    ensures r[i] == chain[target + i]
    decreases |r| - i
  {
    if i < |r| - 1 {
      LinkedDown(m, chain, target, r, i + 1);
      assert LinkedAt(r, i + 1) && StoredAt(m, chain, target + i + 1);
      assert Has(m, r[i]);
    }
  }

  /** And for any range: its last block must be an ancestor, and the others must be linked to it. */
  lemma LinkedExact(m: Tree, chain: seq<Block>, target: nat, r: seq<Block>)
    requires Stored(m, chain) && r != [] && target + |r| <= |chain|
    requires forall i :: 0 <= i < |r| ==> Has(m, r[i])
    ensures r == Slice(chain, target, |r|) <==> r[|r| - 1] == chain[target + |r| - 1] && Linked(r)
  {
    SliceMatches(chain, target, r);
    if r == Slice(chain, target, |r|) {
      MatchesAreLinked(m, chain, target, r);
    } else if r[|r| - 1] == chain[target + |r| - 1] && Linked(r) {
      forall h: nat ensures MatchAt(chain, target, r, h) {
        if target <= h < target + |r| { LinkedDown(m, chain, target, r, h - target); }
      }
    }
  }

  // ---- in every state a node can reach ----

  lemma {:induction false} WeightGrows(chain: seq<Block>, i: nat)
    requires ValidChain(chain) && i < |chain| - 1
    ensures chain[i].weight < chain[|chain| - 1].weight
  {
    var front := chain[..|chain| - 1];
    if i < |front| - 1 { WeightGrows(front, i); }
  }

  /** A stored block above the peak does not descend from it, because it would be heavier. */
  lemma {:induction false} LeavesBelowPeak(c: Blockchain, prev: Block, fork: int)
    requires c.Valid() && c.peak.Some? && Has(c.records, prev)
    requires IsFork(Chain(c.records, c.peak.value), Chain(c.records, prev), fork)
    ensures fork < c.peak.value.height || prev.height <= c.peak.value.height
  {
    var peak, chain := c.peak.value, Chain(c.records, prev);
    if fork == peak.height && prev.height > peak.height {
      assert ValidAt(c.records, prev.hash);
      AgreesBelow(Chain(c.records, peak), chain, fork, fork);
      WeightGrows(chain, fork);
      PeakHeaviest(c);
    }
  }

  lemma OnPeakChain(m: Tree, heights: map<nat, Hash>, main: seq<Block>, chain: seq<Block>, fork: int)
    requires Stored(m, main) && Stored(m, chain) && Indexed(heights, main) && IsFork(main, chain, fork)
    requires 0 < |chain| <= |main| && OnIndex(heights, chain[|chain| - 1])
    ensures fork == |chain| - 1
  {
    assert StoredAt(m, chain, |chain| - 1);
  }

  lemma {:induction false} NoGaps(m: Tree, heights: map<nat, Hash>, high: nat, h: nat)
    requires IndexOk(m, heights) && high in heights && h <= high
    ensures AtHeight(m, heights, h).Some?
  {
    assert NamesAt(m, heights, high);
    if h < high { NoGaps(m, heights, high - 1, h); }
  }

  lemma IndexReads(m: Tree, heights: map<nat, Hash>, prev: Block, target: nat, count: nat, r: Option<seq<Block>>)
    requires IndexOk(m, heights) && OnIndex(heights, prev) && target + count <= prev.height + 1
    requires ReadOff(m, heights, target, count, r)
    ensures r.Some?
  {
    if r.None? {
      var h :| target <= h < target + count && AtHeight(m, heights, h).None?;
      NoGaps(m, heights, prev.height, h);
    }
  }

  /** The two chains and the fork between them, with what a reachable state says about them. */
  ghost predicate Branches(c: Blockchain, prev: Block, main: seq<Block>, chain: seq<Block>, fork: int)
    reads c, c.coins, c.blocks
  {
    && c.Valid() && c.peak.Some? && Has(c.records, prev)
    && main == Chain(c.records, c.peak.value) && chain == Chain(c.records, prev) && IsFork(main, chain, fork)
  }

  lemma BranchFacts(c: Blockchain, prev: Block, main: seq<Block>, chain: seq<Block>, fork: int)
    requires Branches(c, prev, main, chain, fork)
    ensures Stored(c.records, main) && Stored(c.records, chain) && Indexed(c.heightToHash, main)
    ensures |chain| == prev.height + 1 && chain[prev.height] == prev && |main| == c.peak.value.height + 1
    ensures IndexOk(c.records, c.heightToHash) && (fork < |main| - 1 || |chain| <= |main|)
  {
    ChainStored(c.records, prev);
    ChainStored(c.records, c.peak.value);
    LeavesBelowPeak(c, prev, fork);
  }

  /** The look-up of ancestors in a reachable state, where the index names `prev`. It never raises. It is right for a
      `prev` up to the peak; for ranges from the peak down exactly if they end at or below the fork; and for ranges
      above the peak exactly if the index still names the ancestor at each height. */
  lemma AncestorsByIndex(c: Blockchain, prev: Block, main: seq<Block>, chain: seq<Block>, fork: int,
                         target: nat, count: nat, r: Option<seq<Block>>)
    requires Branches(c, prev, main, chain, fork) && OnIndex(c.heightToHash, prev)
    requires 0 < count && target + count <= |chain| && ReadOff(c.records, c.heightToHash, target, count, r)
    ensures r.Some? && |r.value| == count
    ensures prev.height <= c.peak.value.height ==> fork == prev.height
    ensures r.value == Slice(chain, target, count) <==>
      if target <= c.peak.value.height then target + count <= fork + 1
      else forall h :: target <= h < target + count ==> OnIndex(c.heightToHash, chain[h])
  {
    BranchFacts(c, prev, main, chain, fork);
    IndexReads(c.records, c.heightToHash, prev, target, count, r);
    if |chain| <= |main| { OnPeakChain(c.records, c.heightToHash, main, chain, fork); }
    RangeExact(c.records, c.heightToHash, main, chain, fork, target, r.value);
    if target < |main| {
      KeptExact(c.heightToHash, main, chain, fork, target, count);
    } else {
      AboveKept(c.heightToHash, main, chain, fork, target, count);
    }
  }

  lemma AboveKept(heights: map<nat, Hash>, main: seq<Block>, chain: seq<Block>, fork: int, target: nat, count: nat)
    requires fork < |main| <= target && target + count <= |chain|
    ensures RangeKept(heights, main, chain, fork, target, count) <==>
      forall h :: target <= h < target + count ==> OnIndex(heights, chain[h])
  {
    forall h: nat | target <= h < target + count
      ensures EntryKept(heights, main, chain, fork, h) <==> OnIndex(heights, chain[h])
    {
    }
    if forall h :: target <= h < target + count ==> OnIndex(heights, chain[h]) {
      assert forall h :: target <= h < target + count ==> EntryKept(heights, main, chain, fork, h);
    }
  }

  // ---- generator references ----

  datatype GeneratorArg = GeneratorArg(height: nat, generator: nat)
  datatype BlockGenerator = NoGenerator | BlockGenerator(program: nat, args: seq<GeneratorArg>) | Failed

  /** What the code finds for one reference: in the collected fork, else through the index. */
  function Resolved(m: Tree, heights: map<nat, Hash>, reorg: map<nat, Block>, ref: nat): Option<Block> {
    if ref in reorg then Some(reorg[ref]) else AtHeight(m, heights, ref)
  }

  /** The arguments taken from the blocks found; none if a block or its generator is missing. */
  function Args(found: seq<Option<Block>>): (r: Option<seq<GeneratorArg>>)
    ensures r.Some? <==> forall i :: 0 <= i < |found| ==> found[i].Some? && found[i].value.generator.Some?
    ensures r.Some? ==> |r.value| == |found| && forall i :: 0 <= i < |found| ==>
      r.value[i] == GeneratorArg(found[i].value.height, found[i].value.generator.value)
  {
    if found == [] then Some([])
    else
      var n := |found| - 1;
      var front := Args(found[..n]);
      if front.None? || found[n].None? || found[n].value.generator.None? then None
      else Some(front.value + [GeneratorArg(found[n].value.height, found[n].value.generator.value)])
  }

  function AllResolved(m: Tree, heights: map<nat, Hash>, reorg: map<nat, Block>, refs: seq<nat>): seq<Option<Block>> {
    seq(|refs|, i requires 0 <= i < |refs| => Resolved(m, heights, reorg, refs[i]))
  }

  method ResolveRefs(m: Tree, heights: map<nat, Hash>, reorg: map<nat, Block>, refs: seq<nat>)
    returns (r: Option<seq<GeneratorArg>>)
    ensures r == Args(AllResolved(m, heights, reorg, refs))
  {
    var args := [];
    ghost var found := AllResolved(m, heights, reorg, refs);
    for i := 0 to |refs|
      invariant Args(found[..i]) == Some(args)
    {
      assert found[..i + 1][..i] == found[..i];
      var b := Resolved(m, heights, reorg, refs[i]);
      if b.None? || b.value.generator.None? {
        assert found[i].None? || found[i].value.generator.None?;
        return None;
      }
      args := args + [GeneratorArg(b.value.height, b.value.generator.value)];
    }
    assert found[..|refs|] == found;
    r := Some(args);
  }

  /** Collects the blocks from `prev` back to the fork height, the block there included. */
  method CollectReorg(m: Tree, prev: Block, fork: int, ghost chain: seq<Block>) returns (reorg: map<nat, Block>)
    requires Stored(m, chain) && chain != [] && chain[|chain| - 1] == prev && fork < |chain|
    ensures forall h :: h in reorg <==> (if fork < 0 then 0 else fork) <= h < |chain|
    ensures forall h :: h in reorg ==> reorg[h] == chain[h]
  {
    var curr := prev;
    assert StoredAt(m, chain, |chain| - 1);
    reorg := map[curr.height := curr];
    while curr.height > fork && curr.height > 0
      invariant curr.height < |chain| && chain[curr.height] == curr && fork <= curr.height
      invariant forall h :: h in reorg <==> curr.height <= h < |chain|
      invariant forall h :: h in reorg ==> reorg[h] == chain[h]
      decreases curr.height
    {
      assert StoredAt(m, chain, curr.height) && StoredAt(m, chain, curr.height - 1);
      curr := m[curr.prevHash];
      reorg := reorg[curr.height := curr];
    }
  }

  /** The block that a reference of a child of `prev` leads to: the index if it names `prev`, and else the ancestor. */
  function Looked(m: Tree, heights: map<nat, Hash>, prev: Block, ref: nat): Option<Block>
    requires WellFormed(m) && Attached(m, prev)
  {
    if OnIndex(heights, prev) || ref > prev.height then AtHeight(m, heights, ref) else Some(Chain(m, prev)[ref])
  }

  function AllLooked(m: Tree, heights: map<nat, Hash>, prev: Block, refs: seq<nat>): seq<Option<Block>>
    requires WellFormed(m) && Attached(m, prev)
  {
    seq(|refs|, i requires 0 <= i < |refs| => Looked(m, heights, prev, refs[i]))
  }

  lemma ReorgResolves(m: Tree, heights: map<nat, Hash>, reorg: map<nat, Block>, main: seq<Block>, chain: seq<Block>,
                      fork: int, ref: nat)
    requires WellFormed(m) && Stored(m, main) && Stored(m, chain) && Indexed(heights, main) && IsFork(main, chain, fork)
    requires forall h :: h in reorg <==> (if fork < 0 then 0 else fork) <= h < |chain|
    requires forall h :: h in reorg ==> reorg[h] == chain[h]
    ensures ref < |chain| ==> Resolved(m, heights, reorg, ref) == Some(chain[ref])
    ensures ref >= |chain| ==> ref !in reorg
  {
    if ref !in reorg && ref < |chain| { EntryExact(m, heights, main, chain, fork, ref); }
  }

  // Blocks that are handed in beside the store, keyed by their hash: the earlier blocks of a batch.

  type Extra = map<Hash, Block>

  /** Such a block is keyed by its hash, and is the stored one if that is stored; a first block has no parent. */
  ghost predicate ExtraOk(m: Tree, extra: Extra) {
    forall k :: k in extra ==>
      && extra[k].hash == k && Known(m, extra[k])
      && (extra[k].height == 0 ==> extra[k].prevHash !in extra && extra[k].prevHash !in m)
  }

  /** The blocks beside the store that lead up to `b`, oldest first; none if a height does not fit. */
  function Beside(extra: Extra, b: Block): Option<seq<Block>>
    decreases b.height
  {
    if b.prevHash !in extra then Some([])
    else
      var prev := extra[b.prevHash];
      if prev.height + 1 != b.height then None
      else
        var below := Beside(extra, prev);
        if below.None? then None else Some(below.value + [prev])
  }

  function Oldest(list: seq<Block>, b: Block): Block { if list == [] then b else list[0] }

  /** The map holds the blocks of the list, the first one at height `low`. */
  ghost predicate ByHeight(reorg: map<nat, Block>, list: seq<Block>, low: nat) {
    && (forall h :: h in reorg <==> low <= h < low + |list|)
    && (forall h :: h in reorg ==> reorg[h] == list[h - low])
  }

  method WalkBeside(extra: Extra, b: Block) returns (curr: Block, reorg: map<nat, Block>, ok: bool)
    ensures ok <==> Beside(extra, b).Some?
    ensures ok ==> var list := Beside(extra, b).value;
      curr == Oldest(list, b) && curr.prevHash !in extra && ByHeight(reorg, list, curr.height) &&
      |list| + curr.height == b.height
  {
    curr, reorg := b, map[];
    ghost var above: seq<Block> := [];
    assert Beside(extra, b).Some? ==> Beside(extra, b).value + above == Beside(extra, b).value;
    while curr.prevHash in extra
      invariant |above| + curr.height == b.height && curr == Oldest(above, b) && ByHeight(reorg, above, curr.height)
      invariant var below := Beside(extra, curr);
        Beside(extra, b) == if below.None? then None else Some(below.value + above)
      decreases curr.height
    {
      var prev := extra[curr.prevHash];
      if prev.height + 1 != curr.height { return curr, reorg, false; }
      ghost var below := Beside(extra, prev);
      assert below.Some? ==> below.value + [prev] + above == below.value + ([prev] + above);
      above := [prev] + above;
      reorg := reorg[prev.height := prev];
      curr := prev;
    }
    ok := true;
    assert [] + above == above;
  }

  /** What a reference leads to for a block on top of `own`, where the index is asked for everything above. */
  function OwnOr(m: Tree, heights: map<nat, Hash>, own: seq<Block>, ref: nat): Option<Block> {
    if ref < |own| then Some(own[ref]) else AtHeight(m, heights, ref)
  }

  function AllOwnOr(m: Tree, heights: map<nat, Hash>, own: seq<Block>, refs: seq<nat>): seq<Option<Block>> {
    seq(|refs|, i requires 0 <= i < |refs| => OwnOr(m, heights, own, refs[i]))
  }

  /** Looks references up in the chain of `prev` with the list on top, down to where it leaves the peak's chain. */
  method ResolveOn(m: Tree, heights: map<nat, Hash>, peak: Block, prev: Block, above: map<nat, Block>, refs: seq<nat>,
                   ghost list: seq<Block>)
    returns (args: Option<seq<GeneratorArg>>)
    requires WellFormed(m) && Has(m, peak) && Has(m, prev) && Indexed(heights, Chain(m, peak))
    ensures ByHeight(above, list, prev.height + 1) ==> args == Args(AllOwnOr(m, heights, Chain(m, prev) + list, refs))
  {
    ChainStored(m, prev);
    ChainStored(m, peak);
    ghost var own := Chain(m, prev) + list;
    var fork := FindForkPoint(m, peak, prev);
    var below := CollectReorg(m, prev, fork, Chain(m, prev));
    var reorg := above + below;
    args := ResolveRefs(m, heights, reorg, refs);
    if ByHeight(above, list, prev.height + 1) {
      forall i | 0 <= i < |refs| ensures Resolved(m, heights, reorg, refs[i]) == OwnOr(m, heights, own, refs[i]) {
        ReorgResolves(m, heights, below, Chain(m, peak), Chain(m, prev), fork, refs[i]);
      }
      assert AllOwnOr(m, heights, own, refs) == AllResolved(m, heights, reorg, refs);
    }
  }

  predicate FromGenesis(list: seq<Block>) { list != [] && list[0].height == 0 }

  /** The list leads on from a stored block, or begins with a first block. */
  predicate OnStored(m: Tree, list: seq<Block>, b: Block) {
    var first := Oldest(list, b);
    if FromGenesis(list) then first.prevHash !in m
    else first.prevHash in m && (list == [] || m[first.prevHash].height + 1 == first.height)
  }

  /** The whole chain below `b`: what is stored, and the list on top of it. */
  function OwnChain(m: Tree, list: seq<Block>, b: Block): seq<Block>
    requires WellFormed(m) && OnStored(m, list, b)
  {
    (if FromGenesis(list) then [] else Chain(m, m[Oldest(list, b).prevHash])) + list
  }

  /** The way off the index: through the blocks beside the store, and on through the stored ones. */
  method ResolveBeside(m: Tree, heights: map<nat, Hash>, peak: Option<Block>, b: Block, extra: Extra)
    returns (args: Option<seq<GeneratorArg>>)
    requires WellFormed(m)
    requires if peak.None? then m == map[] else Has(m, peak.value) && Indexed(heights, Chain(m, peak.value))
    ensures Beside(extra, b).None? ==> args.None?
    ensures Beside(extra, b).Some? && OnStored(m, Beside(extra, b).value, b) ==>
      args == Args(AllOwnOr(m, heights, OwnChain(m, Beside(extra, b).value, b), b.refs))
    ensures Beside(extra, b) == Some([]) && b.prevHash !in m ==> args == Args(AllResolved(m, heights, map[], b.refs))
  {
    var curr, reorg, ok := WalkBeside(extra, b);
    if !ok { return None; }
    ghost var list := Beside(extra, b).value;
    args := ResolveWalked(m, heights, peak, b, curr, reorg, list);
  }

  method ResolveWalked(m: Tree, heights: map<nat, Hash>, peak: Option<Block>, b: Block, curr: Block,
                       reorg: map<nat, Block>, ghost list: seq<Block>)
    returns (args: Option<seq<GeneratorArg>>)
    requires WellFormed(m) && curr == Oldest(list, b) && ByHeight(reorg, list, curr.height)
    requires if peak.None? then m == map[] else Has(m, peak.value) && Indexed(heights, Chain(m, peak.value))
    ensures OnStored(m, list, b) ==> args == Args(AllOwnOr(m, heights, OwnChain(m, list, b), b.refs))
    ensures list == [] && b.prevHash !in m ==> args == Args(AllResolved(m, heights, map[], b.refs))
  {
    if curr.prevHash in m && peak.Some? {
      args := ResolveOn(m, heights, peak.value, m[curr.prevHash], reorg, b.refs, list);
    } else {
      args := ResolveRefs(m, heights, reorg, b.refs);
      ListAlone(m, heights, list, reorg, curr.height, b.refs);
    }
  }

  lemma ListAlone(m: Tree, heights: map<nat, Hash>, list: seq<Block>, reorg: map<nat, Block>, low: nat, refs: seq<nat>)
    requires ByHeight(reorg, list, low)
    ensures low == 0 ==> AllOwnOr(m, heights, [] + list, refs) == AllResolved(m, heights, reorg, refs)
    ensures list == [] ==> reorg == map[]
  {
    assert [] + list == list;
  }

  lemma {:induction false} StoredBelow(m: Tree, extra: Extra, prev: Block, b: Block)
    requires WellFormed(m) && b.prevHash in extra && extra[b.prevHash] == prev && prev.height + 1 == b.height
    requires Has(m, prev) && prev.height > 0 && Beside(extra, prev).Some?
    requires OnStored(m, Beside(extra, prev).value, prev)
    requires OwnChain(m, Beside(extra, prev).value, prev) == Chain(m, m[prev.prevHash])
    ensures Beside(extra, b).Some? && OnStored(m, Beside(extra, b).value, b)
    ensures OwnChain(m, Beside(extra, b).value, b) == Chain(m, prev)
  {
    var list := Beside(extra, prev).value;
    assert Beside(extra, b) == Some(list + [prev]);
    assert Oldest(list + [prev], b) == Oldest(list, prev);
  }

  /** The height of `b` is that after its parent, as far as the walk back looks at it. */
  predicate HeightFits(m: Tree, b: Block, extra: Extra) {
    b.prevHash in m && b.prevHash in extra ==> b.height > 0 && Attached(m, b)
  }

  /** If the parent is stored, so are the blocks that lead up to it. */
  lemma {:induction false} BesideStored(m: Tree, extra: Extra, b: Block)
    requires WellFormed(m) && ExtraOk(m, extra) && b.prevHash in m && HeightFits(m, b, extra)
    ensures Beside(extra, b).Some? && OnStored(m, Beside(extra, b).value, b)
    ensures OwnChain(m, Beside(extra, b).value, b) == Chain(m, m[b.prevHash])
    decreases b.height
  {
    if b.prevHash in extra {
      var prev := extra[b.prevHash];
      if prev.height > 0 {
        BesideStored(m, extra, prev);
        StoredBelow(m, extra, prev, b);
      }
    }
  }

  /** The generator with its arguments. The index is asked first: a parent whose height is not indexed raises. */
  method GetBlockGenerator(m: Tree, heights: map<nat, Hash>, peak: Option<Block>, b: Block, extra: Extra)
    returns (g: BlockGenerator)
    requires WellFormed(m) && ExtraOk(m, extra)
    requires if peak.None? then m == map[] else Has(m, peak.value) && Indexed(heights, Chain(m, peak.value))
    ensures b.generator.None? ==> g == if b.refs == [] then NoGenerator else Failed
    ensures b.generator.Some? && b.refs == [] ==> g == BlockGenerator(b.generator.value, [])
    ensures b.generator.Some? && b.refs != [] && b.prevHash in m && HeightFits(m, b, extra) ==>
      var prev := m[b.prevHash];
      var args := Args(AllLooked(m, heights, prev, b.refs));
      g == if prev.height !in heights || args.None? then Failed else BlockGenerator(b.generator.value, args.value)
    ensures b.generator.Some? && b.refs != [] && b.prevHash !in m ==>
      var beside := Beside(extra, b);
      && (beside.None? ==> g == Failed)
      && (beside.Some? && OnStored(m, beside.value, b) ==>
            var args := Args(AllOwnOr(m, heights, OwnChain(m, beside.value, b), b.refs));
            g == if args.None? then Failed else BlockGenerator(b.generator.value, args.value))
      && (beside == Some([]) ==>
            var args := Args(AllResolved(m, heights, map[], b.refs));
            g == if args.None? then Failed else BlockGenerator(b.generator.value, args.value))
  {
    if b.generator.None? {
      return if |b.refs| == 0 then NoGenerator else Failed;
    }
    if |b.refs| == 0 {
      return BlockGenerator(b.generator.value, []);
    }
    var args: Option<seq<GeneratorArg>>;
    if b.prevHash in m && m[b.prevHash].height !in heights {
      return Failed;
    } else if b.prevHash in m && heights[m[b.prevHash].height] == b.prevHash {
      args := ResolveRefs(m, heights, map[], b.refs);
      assert AllLooked(m, heights, m[b.prevHash], b.refs) == AllResolved(m, heights, map[], b.refs);
    } else {
      args := ResolveBeside(m, heights, peak, b, extra);
      if b.prevHash in m && HeightFits(m, b, extra) { LookedBeside(m, heights, b, extra); }
    }
    return if args.None? then Failed else BlockGenerator(b.generator.value, args.value);
  }

  lemma {:induction false} LookedBeside(m: Tree, heights: map<nat, Hash>, b: Block, extra: Extra)
    requires WellFormed(m) && ExtraOk(m, extra) && b.prevHash in m && HeightFits(m, b, extra)
    requires !OnIndex(heights, m[b.prevHash])
    ensures Beside(extra, b).Some? && OnStored(m, Beside(extra, b).value, b)
    ensures AllOwnOr(m, heights, OwnChain(m, Beside(extra, b).value, b), b.refs)
         == AllLooked(m, heights, m[b.prevHash], b.refs)
  {
    BesideStored(m, extra, b);
  }

  /** Each block has the one below as its parent. */
  predicate Parents(chain: seq<Block>) {
    forall i :: 0 < i < |chain| ==> chain[i].prevHash == chain[i - 1].hash
  }

  lemma {:induction false} BesideParents(m: Tree, extra: Extra, b: Block)
    requires ExtraOk(m, extra) && Beside(extra, b).Some?
    ensures var list := Beside(extra, b).value;
      && Parents(list) && (list != [] ==> list[|list| - 1].hash == b.prevHash)
      && |list| + Oldest(list, b).height == b.height
    decreases b.height
  {
    if b.prevHash in extra { BesideParents(m, extra, extra[b.prevHash]); }
  }

  lemma {:induction false} StoredParents(m: Tree, prev: Block)
    requires WellFormed(m) && Has(m, prev)
    ensures Parents(Chain(m, prev))
  {
    ChainStored(m, prev);
    var chain := Chain(m, prev);
    forall i | 0 < i < |chain| ensures chain[i].prevHash == chain[i - 1].hash { assert StoredAt(m, chain, i); }
  }

  /** In a batch: the chain put together for a block whose parent is not stored is that of its ancestors, so whatever
      the index says, every reference below the block leads to its own ancestor. */
  lemma {:induction false} BatchReferences(m: Tree, heights: map<nat, Hash>, extra: Extra, b: Block, list: seq<Block>)
    requires WellFormed(m) && ExtraOk(m, extra) && Beside(extra, b) == Some(list) && list != [] && OnStored(m, list, b)
    ensures var own := OwnChain(m, list, b);
      && |own| == b.height > 0 && own[b.height - 1].hash == b.prevHash && Parents(own)
      && (Below(b.refs, b.height - 1) ==> LeadTo(AllOwnOr(m, heights, own, b.refs), b.refs, own))
  {
    BesideParents(m, extra, b);
    if !FromGenesis(list) { StoredParents(m, m[list[0].prevHash]); }
  }

  predicate Below(refs: seq<nat>, height: int) {
    forall i :: 0 <= i < |refs| ==> refs[i] <= height
  }

  /** The references lead to the blocks of `chain`. */
  ghost predicate LeadTo(found: seq<Option<Block>>, refs: seq<nat>, chain: seq<Block>) {
    |found| == |refs| && forall i :: 0 <= i < |refs| ==> refs[i] < |chain| && found[i] == Some(chain[refs[i]])
  }

  /** Where references lead in a reachable state, for a child of a stored block whose height is indexed. If the index
      names another block there, every reference leads to the own ancestor. If it names the parent, a reference does
      so up to the fork with the peak's chain, and above the peak if the index still names the ancestor; so
      references up to the peak all do exactly if none is above the fork, which is no condition for a parent that is
      not above the peak. */
  lemma ReferencesExact(c: Blockchain, prev: Block, main: seq<Block>, chain: seq<Block>, fork: int, refs: seq<nat>)
    requires Branches(c, prev, main, chain, fork) && Below(refs, prev.height)
    ensures var found := AllLooked(c.records, c.heightToHash, prev, refs);
      if OnIndex(c.heightToHash, prev) then
        && (forall i :: 0 <= i < |refs| ==>
              (found[i] == Some(chain[refs[i]]) <==>
                 refs[i] <= fork || (refs[i] > c.peak.value.height && OnIndex(c.heightToHash, chain[refs[i]]))))
        && (Below(refs, c.peak.value.height) ==> (LeadTo(found, refs, chain) <==> Below(refs, fork)))
        && (prev.height <= c.peak.value.height ==> LeadTo(found, refs, chain))
      else
        LeadTo(found, refs, chain)
  {
    BranchFacts(c, prev, main, chain, fork);
    if OnIndex(c.heightToHash, prev) {
      forall i | 0 <= i < |refs| ensures LooksRight(c, main, chain, fork, refs[i]) {
        EntryExact(c.records, c.heightToHash, main, chain, fork, refs[i]);
      }
      if |chain| <= |main| { OnPeakChain(c.records, c.heightToHash, main, chain, fork); }
    }
  }

  ghost predicate LooksRight(c: Blockchain, main: seq<Block>, chain: seq<Block>, fork: int, ref: nat)
    requires ref < |chain|
    reads c
  {
    AtHeight(c.records, c.heightToHash, ref) == Some(chain[ref]) <==>
      ref <= fork || (ref >= |main| && OnIndex(c.heightToHash, chain[ref]))
  }

  // ---- where the look-ups cannot fail ----

  /** A higher block is a heavier one, on whatever branch. */
  ghost predicate Graded(m: Tree) {
    forall j, k :: GradedAt(m, j, k)
  }

  ghost predicate GradedAt(m: Tree, j: Hash, k: Hash) {
    j in m && k in m && m[j].height < m[k].height ==> m[j].weight < m[k].weight
  }

  /** That is so in particular if all blocks are equally hard. */
  ghost predicate WeightByHeight(m: Tree, difficulty: nat, k: Hash) {
    k in m ==> m[k].weight == difficulty * (m[k].height + 1)
  }

  lemma EquallyHard(m: Tree, difficulty: nat)
    requires difficulty > 0 && forall k :: WeightByHeight(m, difficulty, k)
    ensures Graded(m)
  {
    forall j, k ensures GradedAt(m, j, k) {
      if j in m && k in m && m[j].height < m[k].height {
        assert WeightByHeight(m, difficulty, j) && WeightByHeight(m, difficulty, k);
        MulLe(m[j].height + 1, m[k].height, difficulty);
      }
    }
  }

  /** As long as that holds nothing is above the peak: no stored block, and so no entry of the index. */
  lemma NothingAbovePeak(c: Blockchain, prev: Block)
    requires c.Valid() && c.peak.Some? && Graded(c.records) && Has(c.records, prev)
    ensures prev.height <= c.peak.value.height && prev.height in c.heightToHash
    ensures forall h :: h in c.heightToHash ==> h <= c.peak.value.height
  {
    PeakHeaviest(c);
    assert GradedAt(c.records, c.peak.value.hash, prev.hash);
    forall h | h in c.heightToHash ensures h <= c.peak.value.height {
      assert NamesAt(c.records, c.heightToHash, h);
      assert GradedAt(c.records, c.peak.value.hash, c.heightToHash[h]);
    }
  }

  /** So both look-ups are right then: every range of ancestors, and every reference. */
  lemma GradedLookups(c: Blockchain, prev: Block, main: seq<Block>, chain: seq<Block>, fork: int,
                      target: nat, count: nat, r: Option<seq<Block>>, refs: seq<nat>)
    requires Branches(c, prev, main, chain, fork) && Graded(c.records)
    requires 0 < count && target + count <= |chain| && Below(refs, prev.height)
    requires OnIndex(c.heightToHash, prev) ==> ReadOff(c.records, c.heightToHash, target, count, r)
    ensures OnIndex(c.heightToHash, prev) ==> r == Some(Slice(chain, target, count))
    ensures prev.height in c.heightToHash && LeadTo(AllLooked(c.records, c.heightToHash, prev, refs), refs, chain)
  {
    NothingAbovePeak(c, prev);
    ReferencesExact(c, prev, main, chain, fork, refs);
    if OnIndex(c.heightToHash, prev) { AncestorsByIndex(c, prev, main, chain, fork, target, count, r); }
  }
}
