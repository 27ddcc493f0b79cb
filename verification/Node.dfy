/** What every state a node can reach implies. */
module Node {
  import opened Ledger
  import opened CoinTable
  import opened LedgerChain
  import opened LedgerInvariants
  import opened Supply
  import opened BlockTree
  import opened BodyValidation
  import opened Blockchain

  /** No other stored block is as heavy as the heaviest. */
  ghost predicate UniqueHeaviest(m: Tree) {
    forall j, k :: j in m && k in m && m[j].weight == m[k].weight && NoneHeavier(m, k) ==> j == k
  }

  ghost predicate NoneHeavier(m: Tree, k: Hash)
    requires k in m
  {
    forall j :: j in m ==> m[j].weight <= m[k].weight
  }

  lemma PeakHeaviest(c: Blockchain)
    requires c.Valid() && c.peak.Some?
    ensures c.peak.value.hash in c.records && NoneHeavier(c.records, c.peak.value.hash)
  {
    var m, received := c.records, c.received;
    var i: nat :| i < |received| && received[i] == c.peak.value.hash && FirstHeaviest(m, received, i);
    forall k | k in m ensures m[k].weight <= c.peak.value.weight {
      assert k in received;
      var j :| 0 <= j < |received| && received[j] == k;
    }
  }

  lemma PeakExists(c: Blockchain)
    requires c.Valid()
    ensures c.peak.None? <==> c.records == map[]
  {
  }

  /** Two nodes that store the same blocks follow equally heavy chains, in whatever order the blocks came. If one
      block is the heaviest, their peaks, coin tables, summaries and indexes up to the peak are the same. */
  lemma Agreement(c: Blockchain, d: Blockchain)
    requires c.Valid() && d.Valid() && c.records == d.records
    ensures c.peak.Some? <==> d.peak.Some?
    ensures c.peak.Some? ==> c.peak.value.weight == d.peak.value.weight
    ensures UniqueHeaviest(c.records) ==>
      && c.peak == d.peak && c.peakHeight == d.peakHeight
      && c.coins.table == d.coins.table && c.summaries == d.summaries
      && (c.peak.Some? ==> forall h :: 0 <= h <= c.peak.value.height ==>
            h in c.heightToHash && h in d.heightToHash && c.heightToHash[h] == d.heightToHash[h])
  {
    PeakExists(c);
    PeakExists(d);
    if c.peak.Some? {
      PeakHeaviest(c);
      PeakHeaviest(d);
      assert c.records[c.peak.value.hash].weight == c.records[d.peak.value.hash].weight;
    }
  }

  /** Whatever reorganisations led to it, the unspent value in the coin table, plus the fees of the last transaction
      block, is the reward of every claimed height of the peak's chain. */
  lemma PeakSupply(c: Blockchain)
    requires c.Valid() && c.peak.Some?
    ensures var chain := Chain(c.records, c.peak.value);
      && 0 <= LastTx(chain) < |chain|
      && Sum(Unspent(c.coins.table)) + Fees(chain[LastTx(chain)]) == RewardSum(LastClaimed(chain))
  {
    var chain := Chain(c.records, c.peak.value);
    assert ValidAt(c.records, c.peak.value.hash);
    Conservation(chain);
  }
}
