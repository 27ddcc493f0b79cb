/** The block tables: every accepted block, and the row flagged as peak. */
module BlockStore {
  import opened Ledger
  import opened BlockTree

  /** Header hash and included summary by height, along one chain. */
  function HeightIndex(chain: seq<Block>): map<nat, Hash> {
    map i | 0 <= i < |chain| :: chain[i].hash
  }

  function Summaries(chain: seq<Block>): map<nat, nat> {
    map i | 0 <= i < |chain| && chain[i].ses.Some? :: chain[i].ses.value
  }

  /** The part of the two maps from `low` up. */
  ghost predicate IndexedFrom(chain: seq<Block>, low: nat, heights: map<nat, Hash>, summaries: map<nat, nat>) {
    && (forall i :: i in heights <==> low <= i < |chain|)
    && (forall i :: i in heights ==> heights[i] == chain[i].hash)
    && (forall i :: i in summaries <==> low <= i < |chain| && chain[i].ses.Some?)
    && (forall i :: i in summaries ==> summaries[i] == chain[i].ses.value)
  }

  lemma IndexedAll(chain: seq<Block>, heights: map<nat, Hash>, summaries: map<nat, nat>)
    requires IndexedFrom(chain, 0, heights, summaries)
    ensures heights == HeightIndex(chain) && summaries == Summaries(chain)
  {
  }

  lemma IndexedStep(chain: seq<Block>, b: Block, heights: map<nat, Hash>, summaries: map<nat, nat>)
    requires b.height < |chain| && chain[b.height] == b && IndexedFrom(chain, b.height + 1, heights, summaries)
    ensures IndexedFrom(chain, b.height, heights[b.height := b.hash],
                        if b.ses.Some? then summaries[b.height := b.ses.value] else summaries)
  {
  }

  lemma {:induction false} HeightIndexSize(chain: seq<Block>)
    ensures |HeightIndex(chain)| == |chain|
  {
    if chain != [] {
      var n := |chain| - 1;
      HeightIndexSize(chain[..n]);
      assert HeightIndex(chain) == HeightIndex(chain[..n])[n := chain[n].hash];
    }
  }

  method FollowParents(m: Tree, peak: Block) returns (heights: map<nat, Hash>, summaries: map<nat, nat>)
    requires WellFormed(m) && Attached(m, peak)
    ensures heights == HeightIndex(Chain(m, peak)) && summaries == Summaries(Chain(m, peak))
  {
    heights, summaries := map[], map[];
    var curr := peak;
    ghost var chain := Chain(m, peak);
    while true
      invariant OnChain(m, peak, curr)
      invariant IndexedFrom(chain, curr.height + 1, heights, summaries)
      decreases curr.height
    {
      IndexedStep(chain, curr, heights, summaries);
      heights := heights[curr.height := curr.hash];
      if curr.ses.Some? { summaries := summaries[curr.height := curr.ses.value]; }
      if curr.height == 0 { break; }
      Parent(m, peak, curr);
      curr := m[curr.prevHash];
    }
    IndexedAll(chain, heights, summaries);
  }

  class BlockStore {
    var fullBlocks: Tree
    var peakRows: set<Hash>

    constructor ()
      ensures fullBlocks == map[] && peakRows == {}
    {
      fullBlocks, peakRows := map[], {};
    }

    /** Insert or replace; the new row is not flagged. */
    method AddFullBlock(b: Block)
      modifies this
      ensures fullBlocks == old(fullBlocks)[b.hash := b] && peakRows == old(peakRows) - {b.hash}
    {
      fullBlocks := fullBlocks[b.hash := b];
      peakRows := peakRows - {b.hash};
    }

    method SetPeak(hash: Hash)
      modifies this`peakRows
      ensures peakRows == if hash in fullBlocks then {hash} else {}
    {
      peakRows := {};
      peakRows := peakRows + set k | k in fullBlocks && k == hash;
    }

    /** Reads the height index and the included summaries back from the rows: parents are followed
        from the flagged row down to height 0. */
    method GetPeakHeightDicts() returns (heights: map<nat, Hash>, summaries: map<nat, nat>)
      requires WellFormed(fullBlocks) && peakRows <= fullBlocks.Keys && |peakRows| <= 1
      ensures peakRows == {} ==> heights == map[] && summaries == map[]
      ensures forall p :: p in peakRows ==>
        && heights == HeightIndex(Chain(fullBlocks, fullBlocks[p]))
        && summaries == Summaries(Chain(fullBlocks, fullBlocks[p]))
    {
      heights, summaries := map[], map[];
      if peakRows == {} { return; }
      var peak :| peak in peakRows;
      OnlyPeak(peakRows, peak);
      heights, summaries := FollowParents(fullBlocks, fullBlocks[peak]);
    }
  }

  lemma OnlyPeak(s: set<Hash>, p: Hash)
    requires p in s && |s| <= 1
    ensures s == {p}
  {
    assert |s - {p}| == |s| - 1;
  }
}
