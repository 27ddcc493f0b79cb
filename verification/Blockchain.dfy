/** Receiving blocks: the tree of accepted blocks, the peak, its indexes and its coin table. */
module Blockchain {
  import opened Ledger
  import opened CoinTable
  import opened LedgerChain
  import opened LedgerInvariants
  import opened BlockTree
  import opened BodyValidation
  import opened CoinChanges
  import CS = CoinStore
  import BS = BlockStore

  datatype ReceiveBlockResult = NewPeak | AddedAsOrphan | InvalidBlock | AlreadyHaveBlock | DisconnectedBlock

  /** The weight rule with the difficulty expected of the block, and the rules on ancestors. */
  ghost predicate HeaderAccepted(m: Tree, b: Block, difficulty: nat)
    requires WellFormed(m) && Attached(m, b)
  {
    && HeaderOk(b, Ancestors(m, b))
    && (b.height > 0 ==> b.weight == m[b.prevHash].weight + difficulty)
  }

  /** A new block is added exactly when it is connected, its header is right and its body is right. */
  ghost predicate Acceptable(m: Tree, b: Block, difficulty: nat)
    requires WellFormed(m)
  {
    b.hash !in m && Attached(m, b) && HeaderAccepted(m, b, difficulty) && BodyOk(b, Ancestors(m, b))
  }

  // ---- invariants, on values ----

  /** `p` is the first received of the heaviest blocks. */
  ghost predicate Heaviest(m: Tree, received: seq<Hash>, p: Hash)
    requires p in m && forall k :: k in received ==> k in m
  {
    exists i :: 0 <= i < |received| && received[i] == p && FirstHeaviest(m, received, i)
  }

  ghost predicate FirstHeaviest(m: Tree, received: seq<Hash>, i: nat)
    requires i < |received| && forall k :: k in received ==> k in m
  {
    && (forall j :: 0 <= j < i ==> m[received[j]].weight < m[received[i]].weight)
    && (forall j :: i < j < |received| ==> m[received[j]].weight <= m[received[i]].weight)
  }

  /** The height index up to the peak; entries above it may be left from a longer, lighter chain. */
  ghost predicate Indexed(heights: map<nat, Hash>, chain: seq<Block>) {
    forall i :: 0 <= i < |chain| ==> i in heights && heights[i] == chain[i].hash
  }

  /** Adding a valid block keeps the tree valid and every chain in it. */
  lemma TreeGrows(m: Tree, b: Block)
    requires ValidTree(m) && b.hash !in m && Attached(m, b) && ValidChain(Ancestors(m, b) + [b])
    ensures ValidTree(m[b.hash := b])
  {
    TreeWith(m, b);
    var n := m[b.hash := b];
    forall k ensures ValidAt(n, k) {
      if k in m { assert n[k] == m[k] && ValidAt(m, k); }
    }
  }

  // ---- collecting and applying the new part of the chain ----

  /** The blocks from the new peak down to just above the fork, newest first. */
  ghost predicate NewestFirst(blocks: seq<Block>, chain: seq<Block>) {
    |blocks| <= |chain| && forall j :: NewestAt(blocks, chain, j)
  }

  ghost predicate NewestAt(blocks: seq<Block>, chain: seq<Block>, j: int)
    requires |blocks| <= |chain|
  {
    0 <= j < |blocks| ==> blocks[j] == chain[|chain| - 1 - j]
  }

  lemma NewestNext(blocks: seq<Block>, chain: seq<Block>)
    requires NewestFirst(blocks, chain) && |blocks| < |chain|
    ensures NewestFirst(blocks + [chain[|chain| - 1 - |blocks|]], chain)
  {
    var next := blocks + [chain[|chain| - 1 - |blocks|]];
    forall j ensures NewestAt(next, chain, j) { assert NewestAt(blocks, chain, j); }
  }

  method CollectNewBlocks(m: Tree, b: Block, fork: int, heights: map<nat, Hash>, ghost chain: seq<Block>)
    returns (blocks: seq<Block>)
    requires Stored(m, chain) && chain != [] && chain[|chain| - 1] == b && -1 <= fork < |chain|
    requires fork >= 0 ==> fork in heights && heights[fork] == chain[fork].hash
    ensures NewestFirst(blocks, chain) && |blocks| == |chain| - 1 - fork
  {
    blocks := [];
    var curr := b.hash;
    ghost var i := |chain| - 1;
    while fork < 0 || curr != heights[fork]
      invariant fork <= i < |chain| && 0 <= i && curr == chain[i].hash
      invariant NewestFirst(blocks, chain) && |blocks| == |chain| - 1 - i
      decreases i
    {
      assert StoredAt(m, chain, i);
      var fetched := m[curr];
      NewestNext(blocks, chain);
      blocks := blocks + [fetched];
      if fetched.height == 0 {
        break;
      }
      curr := fetched.prevHash;
      i := i - 1;
      assert StoredAt(m, chain, i);
    }
    if fork >= 0 && curr == heights[fork] {
      assert StoredAt(m, chain, i) && StoredAt(m, chain, fork);
    }
  }

  lemma {:induction false} ExpectedAtLeastTwo(chain: seq<Block>)
    requires 0 <= LastTx(chain)
    ensures |ExpectedRewards(chain)| >= 2
  {
    var p := LastTx(chain);
    var two := {PoolCoin(chain[p]), FarmerCoin(chain[p])};
    assert |two| == 2;
    assert two <= ExpectedRewards(chain);
    SubsetSize(two, ExpectedRewards(chain));
  }

  lemma {:induction false} ClaimCount(b: Block, chain: seq<Block>)
    requires ValidChain(chain) && HeaderOk(b, chain) && BodyOk(b, chain) && b.tx.Some?
    ensures if b.height == 0 then Elements(b.tx.value.claims) == {} else |Elements(b.tx.value.claims)| >= 2
  {
    if chain != [] {
      LastTxExists(chain);
      ExpectedAtLeastTwo(chain);
    }
  }

  lemma SubsetSize(a: set<Coin>, b: set<Coin>)
    requires a <= b
    ensures |a| <= |b|
  {
    assert b == a + (b - a);
  }

  /** Applies one block of the new chain to the coin store, and notes the records it creates and spends. Every coin
      it spends is found. */
  method ApplyOne(coins: CS.CoinStore, b: Block, latest: Table, ghost front: seq<Block>) returns (noted: Table)
    requires Extends(b, front) && coins.Valid() && coins.table == Replay(front)
    modifies coins
    ensures coins.Valid() && coins.table == ApplyBlock(Replay(front), b)
    ensures Noted(noted, latest, Touched(b), ApplyBlock(Replay(front), b))
  {
    noted := latest;
    if b.tx.Some? {
      noted := ApplyTxBlock(coins, b, latest, front);
    } else {
      NothingNoted(b, latest, Replay(front));
    }
  }

  lemma NothingNoted(b: Block, latest: Table, t: Table)
    requires b.tx.None?
    ensures Noted(latest, latest, Touched(b), t)
  {
    var names := Touched(b);
    assert names == {};
    assert forall k :: NotedAt(latest, latest, names, t, k);
  }

  method ApplyTxBlock(coins: CS.CoinStore, b: Block, latest: Table, ghost front: seq<Block>) returns (noted: Table)
    requires Extends(b, front) && coins.Valid() && coins.table == Replay(front) && b.tx.Some?
    modifies coins
    ensures coins.Valid() && coins.table == ApplyBlock(Replay(front), b)
    ensures Noted(noted, latest, Touched(b), ApplyBlock(Replay(front), b))
  {
    var added := StoreTxBlock(coins, b, front);
    noted := NoteAdded(latest, added);
    RemovalsPresent(b, front);
    noted := NoteRemoved(coins, noted, Removals(b.tx.value.spends));
    NotedBlock(b, front, latest, NewRows(b), noted);
  }

  method StoreTxBlock(coins: CS.CoinStore, b: Block, ghost front: seq<Block>) returns (added: seq<CoinRecord>)
    requires Extends(b, front) && coins.Valid() && coins.table == Replay(front) && b.tx.Some?
    modifies coins
    ensures coins.Valid() && coins.table == ApplyBlock(Replay(front), b)
    ensures CS.Rows(added) == NewRows(b)
  {
    var tx := b.tx.value;
    NewCoinsAreNew(b, front);
    ClaimCount(b, front);
    ghost var listed;
    var claims, additions, removals := Elements(tx.claims), Additions(tx.spends), Removals(tx.spends);
    added, listed := coins.NewBlock(b.height, tx.timestamp, claims, additions, removals);
    CS.AddedRows(Additions(tx.spends), listed, b.height, tx.timestamp);
  }

  lemma {:induction false} RemovalsPresent(b: Block, front: seq<Block>)
    requires Extends(b, front) && b.tx.Some?
    ensures var removals := Removals(b.tx.value.spends);
      forall i :: 0 <= i < |removals| ==> removals[i] in ApplyBlock(Replay(front), b)
  {
    var removals := Removals(b.tx.value.spends);
    forall i | 0 <= i < |removals| ensures removals[i] in ApplyBlock(Replay(front), b) {
      RemovalPresent(b, front, removals[i]);
    }
  }

  ghost predicate ExtendsAt(chain: seq<Block>, n: nat) {
    n < |chain| ==> Extends(chain[n], chain[..n])
  }

  ghost predicate AllExtend(chain: seq<Block>) {
    forall n :: ExtendsAt(chain, n)
  }

  lemma {:induction false} ValidExtends(chain: seq<Block>)
    requires ValidChain(chain)
    ensures AllExtend(chain)
  {
    forall n: nat ensures ExtendsAt(chain, n) {
      if n < |chain| {
        BlockValid(chain, n);
        Invariants(chain[..n]);
      }
    }
  }

  lemma ReplayNext(chain: seq<Block>, n: nat)
    requires n < |chain|
    ensures Replay(chain[..n + 1]) == ApplyBlock(Replay(chain[..n]), chain[n])
  {
    assert chain[..n + 1][..n] == chain[..n];
  }

  lemma SliceNext(chain: seq<Block>, low: nat, n: nat)
    requires low <= n < |chain|
    ensures chain[low..n + 1] == chain[low..n] + [chain[n]]
  {
  }

  lemma TouchedNext(chain: seq<Block>, fork: int, n: nat)
    requires -1 <= fork < n < |chain|
    ensures TouchedSince(chain[..n + 1], fork) == TouchedSince(chain[..n], fork) + Touched(chain[n])
  {
    SinceFront(chain, fork, n);
  }

  /** After the chain's first `n` blocks: the coin table, the new records, and the rows noted above the fork; to be
      unfolded only where it is needed. */
  ghost predicate AppliedTo(t: Table, latest: Table, base: Table, records: seq<Block>, chain: seq<Block>, fork: int,
                            n: nat)
    requires -1 <= fork < n <= |chain|
  {
    forall use :: AppliedFor(t, latest, base, records, chain, fork, n, use)
  }

  ghost predicate AppliedFor(t: Table, latest: Table, base: Table, records: seq<Block>, chain: seq<Block>, fork: int,
                             n: nat, use: bool)
    requires -1 <= fork < n <= |chain|
  {
    && t == Replay(chain[..n]) && records == chain[fork + 1..n]
    && Noted(latest, base, TouchedSince(chain[..n], fork), Replay(chain[..n]))
  }

  lemma AppliedNext(t: Table, latest: Table, base: Table, records: seq<Block>, chain: seq<Block>, fork: int, n: nat,
                    noted: Table)
    requires AllExtend(chain) && -1 <= fork < n < |chain| && AppliedTo(t, latest, base, records, chain, fork, n)
    requires Noted(noted, latest, Touched(chain[n]), ApplyBlock(Replay(chain[..n]), chain[n]))
    ensures AppliedTo(ApplyBlock(Replay(chain[..n]), chain[n]), noted, base, records + [chain[n]], chain, fork, n + 1)
  {
    assert AppliedFor(t, latest, base, records, chain, fork, n, true) && ExtendsAt(chain, n);
    NotedNext(chain[n], chain[..n], fork, base, latest, noted);
    ReplayNext(chain, n);
    TouchedNext(chain, fork, n);
    SliceNext(chain, fork + 1, n);
  }

  method ApplyNext(coins: CS.CoinStore, b: Block, recordsToAdd: seq<Block>, latest: Table, ghost base: Table,
                   ghost chain: seq<Block>, ghost fork: int, ghost n: nat)
    returns (more: seq<Block>, noted: Table)
    requires AllExtend(chain) && -1 <= fork < n < |chain| && b == chain[n]
    requires coins.Valid() && AppliedTo(coins.table, latest, base, recordsToAdd, chain, fork, n)
    modifies coins
    ensures coins.Valid() && AppliedTo(coins.table, noted, base, more, chain, fork, n + 1)
  {
    assert AppliedFor(coins.table, latest, base, recordsToAdd, chain, fork, n, true) && ExtendsAt(chain, n);
    ghost var t := coins.table;
    more := recordsToAdd + [b];
    noted := ApplyOne(coins, b, latest, chain[..n]);
    AppliedNext(t, latest, base, recordsToAdd, chain, fork, n, noted);
  }

  lemma {:induction false} AppliedAll(t: Table, latest: Table, base: Table, records: seq<Block>, chain: seq<Block>,
                                      fork: int)
    requires -1 <= fork < |chain| && AppliedTo(t, latest, base, records, chain, fork, |chain|)
    ensures t == Replay(chain) && records == chain[fork + 1..]
    ensures Noted(latest, base, TouchedSince(chain, fork), Replay(chain))
  {
    assert AppliedFor(t, latest, base, records, chain, fork, |chain|, true);
    assert chain[..|chain|] == chain;
  }

  lemma AppliedNone(base: Table, chain: seq<Block>, fork: int)
    requires -1 <= fork < |chain|
    ensures AppliedTo(Replay(chain[..fork + 1]), base, base, [], chain, fork, fork + 1)
  {
    NotedStart(base, chain, fork);
  }

  method ApplyNewBlocks(coins: CS.CoinStore, blocks: seq<Block>, base: Table, ghost chain: seq<Block>, ghost fork: int)
    returns (recordsToAdd: seq<Block>, latest: Table)
    requires AllExtend(chain) && -1 <= fork < |chain|
    requires NewestFirst(blocks, chain) && |blocks| == |chain| - 1 - fork
    requires coins.Valid() && coins.table == Replay(chain[..fork + 1])
    modifies coins
    ensures coins.Valid() && coins.table == Replay(chain)
    ensures recordsToAdd == chain[fork + 1..]
    ensures Noted(latest, base, TouchedSince(chain, fork), Replay(chain))
  {
    recordsToAdd, latest := [], base;
    AppliedNone(base, chain, fork);
    ghost var n: nat := fork + 1;
    for k := |blocks| downto 0
      invariant fork < n == |chain| - k
      invariant coins.Valid() && AppliedTo(coins.table, latest, base, recordsToAdd, chain, fork, n)
    {
      assert NewestAt(blocks, chain, k);
      recordsToAdd, latest := ApplyNext(coins, blocks[k], recordsToAdd, latest, base, chain, fork, n);
      n := n + 1;
    }
    AppliedAll(coins.table, latest, base, recordsToAdd, chain, fork);
  }

  /** A first block is a transaction block that spends nothing. */
  lemma GenesisChanges(b: Block)
    requires Extends(b, [])
    ensures b.tx.Some? && Replay([b]) == ApplyBlock(Replay([]), b)
    ensures PeakChanges(map[] + NewRows(b), [], [b], -1)
  {
    var rows: Table := map[] + NewRows(b);
    var removals := Removals(b.tx.value.spends);
    if removals != [] { GenesisSpendsNothing(b, removals[0]); }
    var t := ApplyBlock(Replay([]), b);
    assert forall k :: NotedAt(rows, rows, Elements(removals), t, k);
    NotedBlock(b, [], map[], NewRows(b), rows);
    assert [b][..0] == [];
    TouchedNext([b], -1, 0);
    assert TouchedSince([b], -1) == Touched(b);
    assert CS.Deleted(Replay([]), -1) == map[];
  }

  // ---- the header rules on ancestors ----

  /** Walks back from the parent to the last transaction block. */
  method PrevTxBlock(m: Tree, prev: Block, ghost chain: seq<Block>) returns (p: Block)
    requires Stored(m, chain) && chain != [] && chain[0].tx.Some? && prev == chain[|chain| - 1]
    ensures LastTx(chain) >= 0 && p == chain[LastTx(chain)]
  {
    p := prev;
    assert StoredAt(m, chain, |chain| - 1);
    while p.tx.None?
      invariant p.height < |chain| && chain[p.height] == p
      invariant forall i :: p.height < i < |chain| ==> chain[i].tx.None?
      decreases p.height
    {
      assert StoredAt(m, chain, p.height) && StoredAt(m, chain, p.height - 1);
      p := m[p.prevHash];
    }
  }

  /** The rule of the header that the error names is broken. */
  ghost predicate HeaderBroken(err: Err, m: Tree, b: Block, difficulty: nat)
    requires WellFormed(m) && Attached(m, b)
  {
    var chain := Ancestors(m, b);
    match err
    case InvalidWeight => b.weight != if b.height == 0 then DIFFICULTY_STARTING else m[b.prevHash].weight + difficulty
    case InvalidIsTransactionBlock => b.height == 0 && b.tx.None?
    case InvalidPrevBlockHash =>
      if b.height == 0 then
        b.prevHash != GENESIS_CHALLENGE || (b.tx.Some? && b.tx.value.prevTxHash != GENESIS_CHALLENGE)
      else b.tx.Some? && LastTx(chain) >= 0 && b.tx.value.prevTxHash != chain[LastTx(chain)].hash
    case TimestampTooFarInPast =>
      b.tx.Some? && LastTx(chain) >= 0 && b.tx.value.timestamp <= chain[LastTx(chain)].tx.value.timestamp
    case _ => false
  }

  method CheckHeader(m: Tree, b: Block, difficulty: nat) returns (err: Option<Err>)
    requires ValidTree(m) && Attached(m, b) && 1 <= difficulty
    ensures err.None? <==> HeaderAccepted(m, b, difficulty)
    ensures err.Some? ==> HeaderBroken(err.value, m, b, difficulty)
  {
    if b.height == 0 {
      if b.prevHash != GENESIS_CHALLENGE { return Some(InvalidPrevBlockHash); }
      if b.tx.None? { return Some(InvalidIsTransactionBlock); }
      if b.tx.value.prevTxHash != GENESIS_CHALLENGE { return Some(InvalidPrevBlockHash); }
      if b.weight != DIFFICULTY_STARTING { return Some(InvalidWeight); }
      return None;
    }
    ghost var chain := Ancestors(m, b);
    AncestorsValid(m, b);
    AncestorsStored(m, b);
    GenesisIsTx(chain);
    var prev := m[b.prevHash];
    assert StoredAt(m, chain, |chain| - 1);
    if b.tx.Some? {
      var prevTx := PrevTxBlock(m, prev, chain);
      if b.tx.value.prevTxHash != prevTx.hash { return Some(InvalidPrevBlockHash); }
      if b.tx.value.timestamp <= prevTx.tx.value.timestamp { return Some(TimestampTooFarInPast); }
    }
    if b.weight != prev.weight + difficulty { return Some(InvalidWeight); }
    return None;
  }

  // ---- the summaries and the height index ----

  lemma SummariesCut(a: seq<Block>, b: seq<Block>, fork: int)
    requires -1 <= fork < |a| && fork < |b| && a[..fork + 1] == b[..fork + 1]
    ensures (map h | h in BS.Summaries(a) && h <= fork :: BS.Summaries(a)[h]) == BS.Summaries(b[..fork + 1])
  {
    assert forall i :: 0 <= i <= fork ==> a[i] == a[..fork + 1][i] == b[..fork + 1][i];
  }

  lemma SummariesNext(chain: seq<Block>, n: nat)
    requires n < |chain|
    ensures BS.Summaries(chain[..n + 1])
         == if chain[n].ses.Some? then BS.Summaries(chain[..n])[n := chain[n].ses.value] else BS.Summaries(chain[..n])
  {
    assert chain[..n + 1] == chain[..n] + [chain[n]];
  }

  lemma IndexedCut(heights: map<nat, Hash>, a: seq<Block>, b: seq<Block>, fork: int)
    requires Indexed(heights, a) && -1 <= fork < |a| && fork < |b| && a[..fork + 1] == b[..fork + 1]
    ensures Indexed(heights, b[..fork + 1])
  {
    forall i | 0 <= i < fork + 1 ensures i in heights && heights[i] == b[..fork + 1][i].hash {
      assert a[..fork + 1][i] == a[i];
    }
  }

  lemma IndexedNext(heights: map<nat, Hash>, chain: seq<Block>, n: nat)
    requires n < |chain| && Indexed(heights, chain[..n])
    ensures Indexed(heights[n := chain[n].hash], chain[..n + 1])
  {
    var next := heights[n := chain[n].hash];
    forall i | 0 <= i < n + 1 ensures i in next && next[i] == chain[..n + 1][i].hash {
      if i < n { assert chain[..n][i] == chain[i]; }
    }
  }

  /** Index and summaries are right for the first `n` blocks. */
  ghost predicate IndexState(heights: map<nat, Hash>, summaries: map<nat, nat>, chain: seq<Block>, n: nat)
    requires n <= |chain|
  {
    Indexed(heights, chain[..n]) && summaries == BS.Summaries(chain[..n])
  }

  lemma IndexAdvance(heights: map<nat, Hash>, summaries: map<nat, nat>, chain: seq<Block>, n: nat)
    requires n < |chain| && IndexState(heights, summaries, chain, n)
    ensures IndexState(heights[n := chain[n].hash],
                       if chain[n].ses.Some? then summaries[n := chain[n].ses.value] else summaries, chain, n + 1)
  {
    IndexedNext(heights, chain, n);
    SummariesNext(chain, n);
  }

  // ---- the peak ----

  lemma {:induction false} WeightFromStart(chain: seq<Block>)
    requires ValidChain(chain) && chain != []
    ensures DIFFICULTY_STARTING <= chain[|chain| - 1].weight
  {
    if |chain| > 1 { WeightFromStart(chain[..|chain| - 1]); }
  }

  lemma HeavierWins(m: Tree, received: seq<Hash>, p: Hash, b: Block)
    requires forall k :: k in received ==> k in m
    requires p in m && Heaviest(m, received, p) && b.hash !in m
    ensures forall k :: k in received + [b.hash] ==> k in m[b.hash := b]
    ensures Heaviest(m[b.hash := b], received + [b.hash], if b.weight > m[p].weight then b.hash else p)
  {
    var n, r := m[b.hash := b], received + [b.hash];
    var i :| 0 <= i < |received| && received[i] == p && FirstHeaviest(m, received, i);
    assert forall j :: 0 <= j < |received| ==> r[j] == received[j] && n[r[j]] == m[received[j]];
    if b.weight > m[p].weight {
      assert forall j :: 0 <= j < |received| ==> m[received[j]].weight <= m[received[i]].weight;
      assert FirstHeaviest(n, r, |received|);
    } else {
      assert FirstHeaviest(n, r, i);
    }
  }

  /** The index after a new peak: entries above it stay as they were. */
  ghost function Overlaid(before: map<nat, Hash>, chain: seq<Block>): map<nat, Hash> {
    before + BS.HeightIndex(chain)
  }

  lemma OverlaidStart(before: map<nat, Hash>, chain: seq<Block>)
    requires Indexed(before, chain)
    ensures Overlaid(before, chain) == before
  {
  }

  lemma OverlaidNext(before: map<nat, Hash>, chain: seq<Block>, n: nat)
    requires n < |chain|
    ensures Overlaid(before, chain[..n])[n := chain[n].hash] == Overlaid(before, chain[..n + 1])
  {
    assert forall i :: 0 <= i < n ==> chain[..n][i] == chain[..n + 1][i];
  }

  /** The first `n` blocks are in the index; to be unfolded only where it is needed. */
  ghost predicate AddedTo(before: map<nat, Hash>, heights: map<nat, Hash>, summaries: map<nat, nat>,
                          chain: seq<Block>, n: nat)
  {
    forall use :: AddedFor(before, heights, summaries, chain, n, use)
  }

  ghost predicate AddedFor(before: map<nat, Hash>, heights: map<nat, Hash>, summaries: map<nat, nat>,
                           chain: seq<Block>, n: nat, use: bool)
  {
    n <= |chain| && IndexState(heights, summaries, chain, n) && heights == Overlaid(before, chain[..n])
  }

  lemma AddedNone(heights: map<nat, Hash>, summaries: map<nat, nat>, chain: seq<Block>, n: nat)
    requires n <= |chain| && IndexState(heights, summaries, chain, n)
    ensures AddedTo(heights, heights, summaries, chain, n)
  {
    OverlaidStart(heights, chain[..n]);
  }

  lemma AddedAll(before: map<nat, Hash>, heights: map<nat, Hash>, summaries: map<nat, nat>, chain: seq<Block>)
    requires AddedTo(before, heights, summaries, chain, |chain|)
    ensures IndexState(heights, summaries, chain, |chain|) && heights == Overlaid(before, chain)
  {
    assert AddedFor(before, heights, summaries, chain, |chain|, true);
    assert chain[..|chain|] == chain;
  }

  /** Every entry of the index names a stored block of its height, and there are no gaps. */
  ghost predicate IndexOk(m: Tree, heights: map<nat, Hash>) {
    forall h :: NamesAt(m, heights, h)
  }

  ghost predicate NamesAt(m: Tree, heights: map<nat, Hash>, h: nat) {
    h in heights ==> heights[h] in m && m[heights[h]].height == h && (h > 0 ==> h - 1 in heights)
  }

  lemma IndexKept(m: Tree, b: Block, heights: map<nat, Hash>)
    requires b.hash !in m && IndexOk(m, heights)
    ensures IndexOk(m[b.hash := b], heights)
  {
    var n := m[b.hash := b];
    forall h: nat ensures NamesAt(n, heights, h) { assert NamesAt(m, heights, h); }
  }

  lemma IndexMoved(m: Tree, chain: seq<Block>, heights: map<nat, Hash>)
    requires Stored(m, chain) && IndexOk(m, heights)
    ensures IndexOk(m, Overlaid(heights, chain))
  {
    var next := Overlaid(heights, chain);
    forall h: nat ensures NamesAt(m, next, h) {
      if h < |chain| { assert StoredAt(m, chain, h); } else { assert NamesAt(m, heights, h); }
    }
  }

  /** What the in-memory indexes and the stores say about the peak. */
  ghost predicate PeakOk(m: Tree, peak: Option<Block>, peakHeight: Option<nat>, heights: map<nat, Hash>,
                         summaries: map<nat, nat>, table: Table, peakRows: set<Hash>)
    requires WellFormed(m)
  {
    && IndexOk(m, heights)
    && match peak
       case None => m == map[] && peakHeight.None? && summaries == map[] && table == map[] && peakRows == {}
       case Some(p) =>
         && p.hash in m && m[p.hash] == p
         && peakHeight == Some(p.height)
         && Indexed(heights, Chain(m, p))
         && summaries == BS.Summaries(Chain(m, p))
         && table == Replay(Chain(m, p))
         && peakRows == {p.hash}
  }

  ghost predicate ReceivedOk(m: Tree, received: seq<Hash>, peak: Option<Block>) {
    && (forall k :: k in received <==> k in m)
    && (peak.None? ==> received == [])
    && (peak.Some? ==> peak.value.hash in m && Heaviest(m, received, peak.value.hash))
  }

  /** What an accepted block brings with it. */
  lemma AcceptedChain(m: Tree, b: Block, peak: Option<Block>)
    requires ValidTree(m) && b.hash !in m && Attached(m, b) && HeaderOk(b, Ancestors(m, b)) &&
      BodyOk(b, Ancestors(m, b))
    requires peak.Some? ==> peak.value.hash in m && m[peak.value.hash] == peak.value
    ensures ValidChain(Chain(m, b)) && ValidTree(m[b.hash := b]) && AllExtend(Chain(m, b))
    ensures b.height == 0 && peak.Some? ==> b.weight <= peak.value.weight
  {
    AncestorsValid(m, b);
    ExtendsValid(b, Ancestors(m, b));
    TreeGrows(m, b);
    ValidExtends(Chain(m, b));
    if peak.Some? {
      assert ValidAt(m, peak.value.hash);
      WeightFromStart(Chain(m, peak.value));
    }
  }

  /** The new peak's facts hold in the grown tree. */
  lemma PeakMoved(m: Tree, b: Block, heights: map<nat, Hash>, summaries: map<nat, nat>)
    requires WellFormed(m) && b.hash !in m && Attached(m, b) && WellFormed(m[b.hash := b])
    requires IndexState(heights, summaries, Chain(m, b), |Chain(m, b)|) && IndexOk(m[b.hash := b], heights)
    ensures PeakOk(m[b.hash := b], Some(b), Some(b.height), heights, summaries, Replay(Chain(m, b)), {b.hash})
  {
    TreeWith(m, b);
    assert Chain(m, b)[..|Chain(m, b)|] == Chain(m, b);
  }

  lemma PeakKept(m: Tree, b: Block, p: Block, heights: map<nat, Hash>, summaries: map<nat, nat>, t: Table,
                 rows: set<Hash>)
    requires WellFormed(m) && b.hash !in m && Attached(m, b) && WellFormed(m[b.hash := b])
    requires PeakOk(m, Some(p), Some(p.height), heights, summaries, t, rows)
    ensures PeakOk(m[b.hash := b], Some(p), Some(p.height), heights, summaries, t, rows)
  {
    TreeWith(m, b);
    IndexKept(m, b, heights);
  }

  ghost predicate Heavier(p: Option<Block>, b: Block) { p.None? || b.weight > p.value.weight }

  /** The peak after `b` has been added. */
  ghost function Better(p: Option<Block>, b: Block): Option<Block> { if Heavier(p, b) then Some(b) else p }

  /** The reported fork height, where a fork below the first block is zero, and the reported coin records. */
  ghost predicate ForksAt(m: Tree, p: Option<Block>, b: Block, height: nat, changes: Table)
    requires WellFormed(m) && Attached(m, b)
    requires p.Some? ==> p.value.hash in m && m[p.value.hash] == p.value
  {
    exists fork :: Reported(PeakChain(m, p), Chain(m, b), fork, height, changes)
  }

  ghost predicate Reported(main: seq<Block>, chain: seq<Block>, fork: int, height: nat, changes: Table) {
    && IsFork(main, chain, fork) && height == (if fork < 0 then 0 else fork)
    && PeakChanges(changes, main, chain, fork)
  }

  lemma PeakAdded(m: Tree, b: Block, p: Option<Block>, before: map<nat, Hash>, peakHeight: Option<nat>,
                  heights: map<nat, Hash>, summaries: map<nat, nat>, t: Table, rows: set<Hash>)
    requires WellFormed(m) && b.hash !in m && Attached(m, b) && WellFormed(m[b.hash := b]) && IndexOk(m, before)
    requires if Heavier(p, b) then
        && IndexState(heights, summaries, Chain(m, b), |Chain(m, b)|) && heights == Overlaid(before, Chain(m, b))
        && peakHeight == Some(b.height) && t == Replay(Chain(m, b)) && rows == {b.hash}
      else
        PeakOk(m, p, peakHeight, heights, summaries, t, rows)
    ensures PeakOk(m[b.hash := b], Better(p, b), peakHeight, heights, summaries, t, rows)
  {
    if Heavier(p, b) {
      StoredWith(m, b);
      IndexKept(m, b, before);
      IndexMoved(m[b.hash := b], Chain(m, b), before);
      PeakMoved(m, b, heights, summaries);
    } else {
      PeakKept(m, b, p.value, heights, summaries, t, rows);
    }
  }

  lemma ReceivedAdded(m: Tree, b: Block, received: seq<Hash>, p: Option<Block>)
    requires b.hash !in m && ReceivedOk(m, received, p) && (p.Some? ==> m[p.value.hash] == p.value)
    ensures ReceivedOk(m[b.hash := b], received + [b.hash], Better(p, b))
  {
    if p.None? {
      assert forall k :: k in m <==> k in received;
      assert m == map[];
      FirstReceived(m, b);
      assert received + [b.hash] == [b.hash];
    } else {
      HeavierWins(m, received, p.value.hash, b);
    }
  }

  lemma FirstReceived(m: Tree, b: Block)
    requires m == map[]
    ensures ReceivedOk(m[b.hash := b], [b.hash], Some(b))
  {
    assert FirstHeaviest(m[b.hash := b], [b.hash], 0);
  }

  /** What the peak's chain gives the block that comes next. */
  lemma PeakFacts(m: Tree, p: Option<Block>, peakHeight: Option<nat>, heights: map<nat, Hash>,
                  summaries: map<nat, nat>, t: Table, rows: set<Hash>, b: Block)
    requires ValidTree(m) && PeakOk(m, p, peakHeight, heights, summaries, t, rows) && Attached(m, b)
    ensures RollsBack(PeakChain(m, p)) && t == Replay(PeakChain(m, p))
    ensures Indexed(heights, PeakChain(m, p)) && summaries == BS.Summaries(PeakChain(m, p))
    ensures p.None? ==> b.height == 0
  {
    PeakRollsBack(m, p);
  }

  /** Undoing the blocks above a height leaves the coins of the chain up to that height. */
  ghost predicate RollsBackTo(chain: seq<Block>, height: int) {
    && (-1 <= height < |chain| ==> Rollback(Replay(chain), height) == Replay(chain[..height + 1]))
    && (height == |chain| - 1 ==> CS.Deleted(Replay(chain), height) == map[])
  }

  ghost predicate RollsBack(chain: seq<Block>) {
    forall h :: RollsBackTo(chain, h)
  }

  lemma {:induction false} NothingDeleted(chain: seq<Block>)
    requires ValidChain(chain)
    ensures CS.Deleted(Replay(chain), |chain| - 1) == map[]
  {
    Invariants(chain);
    NoneAbove(Replay(chain), |chain|);
  }

  lemma NoneAbove(t: Table, n: nat)
    requires RowsOk(t, n)
    ensures CS.Deleted(t, n - 1) == map[]
  {
    forall k | k in t ensures t[k].confirmed <= n - 1 { assert RowOk(t, k, n); }
  }

  lemma PeakRollsBack(m: Tree, p: Option<Block>)
    requires ValidTree(m) && (p.Some? ==> p.value.hash in m && m[p.value.hash] == p.value)
    ensures RollsBack(PeakChain(m, p))
  {
    var main := PeakChain(m, p);
    assert p.Some? ==> ValidAt(m, p.value.hash);
    forall h ensures RollsBackTo(main, h) {
      if -1 <= h < |main| { RollbackIsReplay(main, h); }
      if h == |main| - 1 { NothingDeleted(main); }
    }
  }

  lemma {:induction false} ChainHeights(m: Tree, b: Block)
    requires WellFormed(m) && Attached(m, b)
    ensures forall i :: 0 <= i < |Chain(m, b)| ==> Chain(m, b)[i].height == i
  {
    forall i | 0 <= i < |Chain(m, b)| ensures Chain(m, b)[i].height == i { ChainAt(m, b, i); }
  }

  /** The index read back from the store. */
  lemma {:induction false} PeakReloaded(m: Tree, p: Block, heights: map<nat, Hash>, summaries: map<nat, nat>,
                                        t: Table, rows: set<Hash>)
    requires WellFormed(m) && PeakOk(m, Some(p), Some(p.height), heights, summaries, t, rows)
    ensures var index := BS.HeightIndex(Chain(m, p));
      && PeakOk(m, Some(p), Some(p.height), index, summaries, t, rows)
      && index.Keys <= heights.Keys && (forall h :: h in index ==> index[h] == heights[h]) && |index| == p.height + 1
  {
    BS.HeightIndexSize(Chain(m, p));
    ChainIndexOk(m, p);
  }

  lemma {:induction false} ChainIndexOk(m: Tree, p: Block)
    requires WellFormed(m) && p.hash in m && m[p.hash] == p
    ensures IndexOk(m, BS.HeightIndex(Chain(m, p)))
  {
    ChainStored(m, p);
    IndexMoved(m, Chain(m, p), map[]);
    assert Overlaid(map[], Chain(m, p)) == BS.HeightIndex(Chain(m, p));
  }

  class Blockchain {
    var peakHeight: Option<nat>
    var records: Tree
    var heightToHash: map<nat, Hash>
    var summaries: map<nat, nat>
    const coins: CS.CoinStore
    const blocks: BS.BlockStore
    ghost var peak: Option<Block>
    ghost var received: seq<Hash>

    /** The state after any run: every stored block is valid on its own branch; the peak is the
        first received of the heaviest; index and summaries are those of its chain; and the coin
        table is the replay of that chain. */
    ghost predicate Valid()
      reads this, coins, blocks
    {
      && coins.Valid() && ValidTree(records) && blocks.fullBlocks == records
      && PeakOk(records, peak, peakHeight, heightToHash, summaries, coins.table, blocks.peakRows)
      && ReceivedOk(records, received, peak)
    }

    constructor (cacheSize: nat)
      ensures Valid() && records == map[] && heightToHash == map[] && peak.None? && fresh(coins) && fresh(blocks)
    {
      coins := new CS.CoinStore(cacheSize);
      blocks := new BS.BlockStore();
      peakHeight, records, heightToHash, summaries := None, map[], map[], map[];
      peak, received := None, [];
    }

    method GetPeak() returns (p: Option<Block>)
      requires Valid()
      ensures p == peak
    {
      if peakHeight.None? { return None; }
      p := Some(records[heightToHash[peakHeight.value]]);
    }

    /** Where the new block's chain leaves the peak's. A hint is the true fork height. */
    method ForkPoint(b: Block, p: Block, hint: Option<nat>) returns (fork: int)
      requires WellFormed(records) && b.hash !in records && Attached(records, b)
      requires p.hash in records && records[p.hash] == p
      requires hint.Some? ==> IsFork(Chain(records, p), Ancestors(records, b), hint.value)
      ensures IsFork(Chain(records, p), Chain(records, b), fork)
      ensures b.height > 0 && b.prevHash == p.hash ==> fork == p.height
    {
      NotOnChain(records, p, b);
      if b.height > 0 && b.prevHash == p.hash {
        fork := p.height;
        assert Ancestors(records, b) == Chain(records, p);
        ForkWithChild(Chain(records, p), Ancestors(records, b), b, fork);
      } else if hint.Some? {
        fork := hint.value;
        ForkWithChild(Chain(records, p), Ancestors(records, b), b, fork);
      } else {
        fork := FindForkPoint(records, b, p);
      }
    }

    /** Replaces the tail of the main chain above the fork: coins are rolled back unless the block
        just extends the peak, later summaries are dropped, and the new blocks are applied. */
    method SwitchPeak(b: Block, fork: int, reorg: bool, ghost main: seq<Block>, ghost chain: seq<Block>)
      returns (recordsToAdd: seq<Block>, changes: Table)
      requires coins.Valid() && RollsBack(main) && coins.table == Replay(main)
      requires Indexed(heightToHash, main) && summaries == BS.Summaries(main)
      requires IsFork(main, chain, fork) && (!reorg ==> fork == |main| - 1)
      requires AllExtend(chain) && chain != [] && chain[|chain| - 1] == b
      requires Stored(blocks.fullBlocks, chain) && b.hash in blocks.fullBlocks
      modifies this`summaries, coins, blocks`peakRows
      ensures coins.Valid() && coins.table == Replay(chain)
      ensures blocks.peakRows == {b.hash}
      ensures recordsToAdd == chain[fork + 1..]
      ensures summaries == BS.Summaries(chain[..fork + 1])
      ensures PeakChanges(changes, main, chain, fork)
    {
      var rolledBack := RollbackTo(fork, reorg, main, chain);
      SummariesCut(main, chain, fork);
      summaries := map h | h in summaries && h <= fork :: summaries[h];
      IndexedCut(heightToHash, main, chain, fork);
      assert fork >= 0 ==> chain[..fork + 1][fork] == chain[fork];
      var toAdd := CollectNewBlocks(blocks.fullBlocks, b, fork, heightToHash, chain);
      recordsToAdd, changes := ApplyNewBlocks(coins, toAdd, rolledBack, chain, fork);
      blocks.SetPeak(b.hash);
    }

    method RollbackTo(fork: int, reorg: bool, ghost main: seq<Block>, ghost chain: seq<Block>) returns (changes: Table)
      requires coins.Valid() && RollsBack(main) && coins.table == Replay(main)
      requires IsFork(main, chain, fork) && (!reorg ==> fork == |main| - 1)
      modifies coins
      ensures coins.Valid() && coins.table == Replay(chain[..fork + 1])
      ensures changes == CS.Deleted(Replay(main), fork)
    {
      assert RollsBackTo(main, fork);
      if reorg {
        changes := coins.RollbackToBlock(fork);
      } else {
        assert main[..fork + 1] == main;
        changes := map[];
      }
    }

    /** Decides whether the new block becomes the peak, and where its chain leaves the old one. */
    method ChooseFork(b: Block, p: Option<Block>, hint: Option<nat>) returns (fork: Option<int>)
      requires WellFormed(records) && b.hash !in records && Attached(records, b)
      requires b.height == 0 && p.Some? ==> b.weight <= p.value.weight
      requires if p.None? then b.height == 0 else p.value.hash in records && records[p.value.hash] == p.value
      requires hint.Some? && p.Some? ==> IsFork(Chain(records, p.value), Ancestors(records, b), hint.value)
      ensures fork.Some? <==> Heavier(p, b)
      ensures fork.Some? ==> IsFork(PeakChain(records, p), Chain(records, b), fork.value)
      ensures fork.Some? && p.Some? && b.prevHash == p.value.hash ==> fork.value == p.value.height
      ensures fork.Some? && p.Some? ==> b.height > 0
    {
      if b.height == 0 {
        return if p.None? then Some(-1) else None;
      }
      if b.weight <= p.value.weight {
        return None;
      }
      var at := ForkPoint(b, p.value, hint);
      fork := Some(at);
    }

    /** Moves coins, summaries and the stored peak over to the chain of the new peak. */
    method ReconsiderPeak(b: Block, p: Option<Block>, fork: Option<int>, ghost main: seq<Block>,
                          ghost chain: seq<Block>)
      returns (newHeight: Option<nat>, recordsToAdd: seq<Block>, changes: Table)
      requires coins.Valid() && RollsBack(main) && coins.table == Replay(main)
      requires Indexed(heightToHash, main) && summaries == BS.Summaries(main)
      requires AllExtend(chain) && chain != [] && chain[|chain| - 1] == b && |chain| == b.height + 1
      requires Stored(blocks.fullBlocks, chain) && b.hash in blocks.fullBlocks
      requires fork.Some? ==> IsFork(main, chain, fork.value)
      requires fork.Some? ==> if p.None? then main == [] && b.height == 0 else
        b.height > 0 && (b.prevHash == p.value.hash ==> fork.value == |main| - 1)
      modifies this`summaries, coins, blocks`peakRows
      ensures coins.Valid()
      ensures if fork.Some? then
          && newHeight == Some(b.height) && recordsToAdd == chain[fork.value + 1..]
          && summaries == BS.Summaries(chain[..fork.value + 1])
          && coins.table == Replay(chain) && blocks.peakRows == {b.hash}
          && PeakChanges(changes, main, chain, fork.value)
        else
          && newHeight.None? && recordsToAdd == [] && changes == map[]
          && summaries == old(summaries) && coins.table == old(coins.table) && blocks.peakRows == old(blocks.peakRows)
    {
      newHeight, recordsToAdd, changes := None, [], map[];
      if fork.Some? {
        newHeight := Some(b.height);
        if b.height == 0 {
          changes := ApplyGenesis(b, chain);
          blocks.SetPeak(b.hash);
          recordsToAdd := [b];
        } else {
          recordsToAdd, changes := SwitchPeak(b, fork.value, b.prevHash != p.value.hash, main, chain);
        }
      }
    }

    /** A first block spends nothing, so the coins it adds are all that changes. */
    method ApplyGenesis(b: Block, ghost chain: seq<Block>) returns (changes: Table)
      requires coins.Valid() && coins.table == map[] && chain == [b] && AllExtend(chain)
      modifies coins
      ensures coins.Valid() && coins.table == Replay(chain) && PeakChanges(changes, [], chain, -1)
    {
      assert ExtendsAt(chain, 0) && chain[..0] == [];
      GenesisChanges(b);
      changes := map[];
      if b.tx.Some? {
        var added := StoreTxBlock(coins, b, []);
        changes := NoteAdded(map[], added);
      }
    }

    method AddRecords(recordsToAdd: seq<Block>, ghost chain: seq<Block>, ghost fork: int)
      requires -1 <= fork < |chain| && recordsToAdd == chain[fork + 1..]
      requires forall i :: 0 <= i < |chain| ==> chain[i].height == i
      requires IndexState(heightToHash, summaries, chain, fork + 1)
      modifies this`heightToHash, this`summaries
      ensures IndexState(heightToHash, summaries, chain, |chain|)
      ensures heightToHash == Overlaid(old(heightToHash), chain)
    {
      AddedNone(heightToHash, summaries, chain, fork + 1);
      for i := 0 to |recordsToAdd|
        invariant AddedTo(old(heightToHash), heightToHash, summaries, chain, fork + 1 + i)
      {
        AddRecord(recordsToAdd[i], old(heightToHash), chain, fork + 1 + i);
      }
      AddedAll(old(heightToHash), heightToHash, summaries, chain);
    }

    method AddRecord(r: Block, ghost before: map<nat, Hash>, ghost chain: seq<Block>, ghost n: nat)
      requires n < |chain| && r == chain[n] && r.height == n && AddedTo(before, heightToHash, summaries, chain, n)
      modifies this`heightToHash, this`summaries
      ensures AddedTo(before, heightToHash, summaries, chain, n + 1)
    {
      assert AddedFor(before, heightToHash, summaries, chain, n, true);
      IndexAdvance(heightToHash, summaries, chain, n);
      OverlaidNext(before, chain, n);
      heightToHash := heightToHash[r.height := r.hash];
      if r.ses.Some? { summaries := summaries[r.height := r.ses.value]; }
    }

    method MoveIndexes(newHeight: Option<nat>, recordsToAdd: seq<Block>,
                       ghost main: seq<Block>, ghost chain: seq<Block>, ghost fork: int)
      requires newHeight.Some? ==>
        && IsFork(main, chain, fork) && Indexed(heightToHash, main) && summaries == BS.Summaries(chain[..fork + 1])
        && recordsToAdd == chain[fork + 1..]
      requires newHeight.None? ==> recordsToAdd == []
      requires forall i :: 0 <= i < |chain| ==> chain[i].height == i
      modifies this`heightToHash, this`summaries, this`peakHeight
      ensures newHeight.Some? ==>
        && peakHeight == newHeight && IndexState(heightToHash, summaries, chain, |chain|)
        && heightToHash == Overlaid(old(heightToHash), chain)
      ensures newHeight.None? ==>
        peakHeight == old(peakHeight) && heightToHash == old(heightToHash) && summaries == old(summaries)
    {
      if newHeight.Some? {
        IndexedCut(heightToHash, main, chain, fork);
        AddRecords(recordsToAdd, chain, fork);
        peakHeight := newHeight;
      }
    }

    /** Moves coins, stored peak, summaries and height index to the chain of the stored block if it is
        the new peak. */
    method FollowHeavier(b: Block, p: Option<Block>, fork: Option<int>, ghost main: seq<Block>, ghost chain: seq<Block>)
      returns (forkHeight: Option<nat>, changes: Table)
      requires coins.Valid() && RollsBack(main) && coins.table == Replay(main)
      requires Indexed(heightToHash, main) && summaries == BS.Summaries(main)
      requires AllExtend(chain) && chain != [] && chain[|chain| - 1] == b && |chain| == b.height + 1
      requires forall i :: 0 <= i < |chain| ==> chain[i].height == i
      requires Stored(blocks.fullBlocks, chain) && b.hash in blocks.fullBlocks
      requires fork.Some? ==> IsFork(main, chain, fork.value)
      requires fork.Some? ==> if p.None? then main == [] && b.height == 0 else
        b.height > 0 && (b.prevHash == p.value.hash ==> fork.value == |main| - 1)
      modifies this`summaries, this`heightToHash, this`peakHeight, coins, blocks`peakRows
      ensures coins.Valid()
      ensures if fork.Some? then
          && IndexState(heightToHash, summaries, chain, |chain|) && heightToHash == Overlaid(old(heightToHash), chain)
          && peakHeight == Some(b.height) && coins.table == Replay(chain) && blocks.peakRows == {b.hash}
          && forkHeight.Some? && Reported(main, chain, fork.value, forkHeight.value, changes)
        else
          && forkHeight.None? && changes == map[] && peakHeight == old(peakHeight) && summaries == old(summaries)
          && heightToHash == old(heightToHash) && coins.table == old(coins.table)
          && blocks.peakRows == old(blocks.peakRows)
    {
      var newHeight, recordsToAdd;
      newHeight, recordsToAdd, changes := ReconsiderPeak(b, p, fork, main, chain);
      MoveIndexes(newHeight, recordsToAdd, main, chain, if fork.Some? then fork.value else -1);
      forkHeight := if fork.None? then None else Some(if fork.value < 0 then 0 else fork.value);
    }

    /** Follows the chosen fork, and keeps what the indexes say about the peak. */
    method MovePeak(b: Block, p: Option<Block>, fork: Option<int>) returns (forkHeight: Option<nat>, changes: Table)
      requires coins.Valid() && ValidTree(records) && blocks.fullBlocks == records[b.hash := b]
      requires PeakOk(records, p, peakHeight, heightToHash, summaries, coins.table, blocks.peakRows)
      requires b.hash !in records && Attached(records, b)
      requires AllExtend(Chain(records, b)) && WellFormed(records[b.hash := b])
      requires fork.Some? <==> Heavier(p, b)
      requires fork.Some? ==> IsFork(PeakChain(records, p), Chain(records, b), fork.value)
      requires fork.Some? && p.Some? ==> b.height > 0 && (b.prevHash == p.value.hash ==> fork.value == p.value.height)
      modifies this`summaries, this`heightToHash, this`peakHeight, coins, blocks`peakRows
      ensures coins.Valid()
      ensures PeakOk(records[b.hash := b], Better(p, b), peakHeight, heightToHash, summaries, coins.table,
                     blocks.peakRows)
      ensures if Heavier(p, b) then
          && forkHeight.Some? && ForksAt(records, p, b, forkHeight.value, changes)
          && heightToHash == Overlaid(old(heightToHash), Chain(records, b))
        else
          forkHeight.None? && changes == map[] && peakHeight == old(peakHeight) && summaries == old(summaries)
          && heightToHash == old(heightToHash) && coins.table == old(coins.table)
    {
      PeakFacts(records, p, peakHeight, heightToHash, summaries, coins.table, blocks.peakRows, b);
      ChainHeights(records, b);
      StoredWith(records, b);
      forkHeight, changes := FollowHeavier(b, p, fork, PeakChain(records, p), Chain(records, b));
      PeakAdded(records, b, p, old(heightToHash), peakHeight, heightToHash, summaries, coins.table, blocks.peakRows);
    }

    method UpdatePeak(b: Block, p: Option<Block>, hint: Option<nat>) returns (forkHeight: Option<nat>, changes: Table)
      requires coins.Valid() && ValidTree(records) && blocks.fullBlocks == records
      requires PeakOk(records, p, peakHeight, heightToHash, summaries, coins.table, blocks.peakRows)
      requires b.hash !in records && Attached(records, b)
      requires AllExtend(Chain(records, b)) && WellFormed(records[b.hash := b])
      requires b.height == 0 && p.Some? ==> b.weight <= p.value.weight
      requires hint.Some? && p.Some? ==> IsFork(Chain(records, p.value), Ancestors(records, b), hint.value)
      modifies this`summaries, this`heightToHash, this`peakHeight, coins, blocks
      ensures coins.Valid() && blocks.fullBlocks == records[b.hash := b]
      ensures PeakOk(records[b.hash := b], Better(p, b), peakHeight, heightToHash, summaries, coins.table,
                     blocks.peakRows)
      ensures if Heavier(p, b) then
          && forkHeight.Some? && ForksAt(records, p, b, forkHeight.value, changes)
          && heightToHash == Overlaid(old(heightToHash), Chain(records, b))
        else
          forkHeight.None? && changes == map[] && peakHeight == old(peakHeight) && summaries == old(summaries)
          && heightToHash == old(heightToHash) && coins.table == old(coins.table)
    {
      assert blocks.peakRows - {b.hash} == blocks.peakRows;
      blocks.AddFullBlock(b);
      var fork := ChooseFork(b, p, hint);
      forkHeight, changes := MovePeak(b, p, fork);
    }

    method Remember(b: Block, ghost p: Option<Block>)
      requires coins.Valid() && b.hash !in records && blocks.fullBlocks == records[b.hash := b]
      requires ValidTree(records[b.hash := b])
      requires PeakOk(records[b.hash := b], Better(p, b), peakHeight, heightToHash, summaries, coins.table,
                      blocks.peakRows)
      requires ReceivedOk(records, received, p) && (p.Some? ==> records[p.value.hash] == p.value)
      modifies this`records, this`peak, this`received
      ensures Valid() && records == old(records)[b.hash := b]
      ensures peak == Better(p, b) && received == old(received) + [b.hash]
    {
      ReceivedAdded(records, b, received, p);
      records, peak, received := records[b.hash := b], Better(p, b), received + [b.hash];
    }

    /** Stores an accepted block and updates everything that follows the peak. */
    method AddBlock(b: Block, p: Option<Block>, hint: Option<nat>) returns (forkHeight: Option<nat>, changes: Table)
      requires Valid() && p == peak
      requires b.hash !in records && Attached(records, b)
      requires AllExtend(Chain(records, b)) && ValidTree(records[b.hash := b])
      requires b.height == 0 && peak.Some? ==> b.weight <= peak.value.weight
      requires hint.Some? && peak.Some? ==> IsFork(Chain(records, peak.value), Ancestors(records, b), hint.value)
      modifies this, coins, blocks
      ensures Valid() && records == old(records)[b.hash := b] && received == old(received) + [b.hash]
      ensures peak == Better(old(peak), b)
      ensures if Heavier(old(peak), b) then
          && forkHeight.Some? && ForksAt(old(records), old(peak), b, forkHeight.value, changes)
          && heightToHash == Overlaid(old(heightToHash), Chain(old(records), b))
        else
          forkHeight.None? && changes == map[] && peakHeight == old(peakHeight) && summaries == old(summaries)
          && heightToHash == old(heightToHash) && coins.table == old(coins.table)
    {
      forkHeight, changes := UpdatePeak(b, p, hint);
      Remember(b, p);
    }

    /** Header and body checks of a block whose parent is known. Only the coin cache is touched. */
    method Validate(b: Block, difficulty: nat, p: Option<Block>, hint: Option<nat>) returns (err: Option<Err>)
      requires ValidTree(records) && Attached(records, b) && 1 <= difficulty
      requires coins.Valid() && PeakTable(records, p, coins.table)
      requires hint.Some? && p.Some? ==> IsFork(Chain(records, p.value), Ancestors(records, b), hint.value)
      modifies coins`cache
      ensures coins.Valid()
      ensures err.None? <==> HeaderAccepted(records, b, difficulty) && BodyOk(b, Ancestors(records, b))
      ensures err.Some? ==>
        HeaderBroken(err.value, records, b, difficulty) || Breaks(err.value, b, Ancestors(records, b))
    {
      err := CheckHeader(records, b, difficulty);
      if err.None? {
        err := ValidateBody(records, coins, p, b, hint);
      }
    }

    method AddAccepted(b: Block, p: Option<Block>, hint: Option<nat>) returns (forkHeight: Option<nat>, changes: Table)
      requires Valid() && p == peak && b.hash !in records && Attached(records, b)
      requires HeaderOk(b, Ancestors(records, b)) && BodyOk(b, Ancestors(records, b))
      requires hint.Some? && peak.Some? ==> IsFork(Chain(records, peak.value), Ancestors(records, b), hint.value)
      modifies this, coins, blocks
      ensures Valid() && records == old(records)[b.hash := b] && received == old(received) + [b.hash]
      ensures peak == Better(old(peak), b)
      ensures if Heavier(old(peak), b) then
          && forkHeight.Some? && ForksAt(old(records), old(peak), b, forkHeight.value, changes)
          && heightToHash == Overlaid(old(heightToHash), Chain(old(records), b))
        else
          forkHeight.None? && changes == map[] && peakHeight == old(peakHeight) && summaries == old(summaries)
          && heightToHash == old(heightToHash) && coins.table == old(coins.table)
    {
      AcceptedChain(records, b, peak);
      forkHeight, changes := AddBlock(b, p, hint);
    }

    /** Checks a new block whose parent is known, and adds it if it passes. */
    method ReceiveAttached(b: Block, difficulty: nat, hint: Option<nat>)
      returns (err: Option<Err>, forkHeight: Option<nat>, changes: Table)
      requires Valid() && 1 <= difficulty && b.hash !in records && Attached(records, b)
      requires hint.Some? && peak.Some? ==> IsFork(Chain(records, peak.value), Ancestors(records, b), hint.value)
      modifies this, coins, blocks
      ensures Valid() && (err.None? <==> Acceptable(old(records), b, difficulty))
      ensures err.Some? ==>
        HeaderBroken(err.value, old(records), b, difficulty) || Breaks(err.value, b, Ancestors(old(records), b))
      ensures if err.None? then
          records == old(records)[b.hash := b] && received == old(received) + [b.hash] && peak == Better(old(peak), b)
        else
          records == old(records) && received == old(received) && peak == old(peak)
      ensures if err.None? && Heavier(old(peak), b) then
          && forkHeight.Some? && ForksAt(old(records), old(peak), b, forkHeight.value, changes)
          && heightToHash == Overlaid(old(heightToHash), Chain(old(records), b))
        else
          forkHeight.None? && changes == map[] && peakHeight == old(peakHeight) && summaries == old(summaries)
          && heightToHash == old(heightToHash) && coins.table == old(coins.table)
    {
      forkHeight, changes := None, map[];
      var p := GetPeak();
      err := Validate(b, difficulty, p, hint);
      if err.None? {
        forkHeight, changes := AddAccepted(b, p, hint);
      }
    }

    /** The node's reaction to a block, for every state it can be in. */
    method ReceiveBlock(b: Block, difficulty: nat, hint: Option<nat>)
      returns (result: ReceiveBlockResult, err: Option<Err>, forkHeight: Option<nat>, changes: Table)
      requires Valid() && 1 <= difficulty
      requires hint.Some? && peak.Some? && Attached(records, b) ==>
        IsFork(Chain(records, peak.value), Ancestors(records, b), hint.value)
      modifies this, coins, blocks
      ensures Valid()
      ensures result.AlreadyHaveBlock? <==> b.hash in old(records)
      ensures result.DisconnectedBlock? <==> b.hash !in old(records) && b.height > 0 && b.prevHash !in old(records)
      ensures result.NewPeak? || result.AddedAsOrphan? <==> Acceptable(old(records), b, difficulty)
      ensures err.Some? <==> result.InvalidBlock? || result.DisconnectedBlock?
      ensures result.DisconnectedBlock? ==> err == Some(InvalidPrevBlockHash)
      ensures result.InvalidBlock? ==>
        if !Attached(old(records), b) then err == Some(InvalidHeight)
        else HeaderBroken(err.value, old(records), b, difficulty) || Breaks(err.value, b, Ancestors(old(records), b))
      ensures if result.NewPeak? || result.AddedAsOrphan? then
          && records == old(records)[b.hash := b] && received == old(received) + [b.hash]
          && peak == Better(old(peak), b)
          && (result.NewPeak? <==> Heavier(old(peak), b))
        else
          records == old(records) && received == old(received) && peak == old(peak)
      ensures if result.NewPeak? then
          && forkHeight.Some? && ForksAt(old(records), old(peak), b, forkHeight.value, changes)
          && heightToHash == Overlaid(old(heightToHash), Chain(old(records), b))
        else
          forkHeight.None? && changes == map[] && peakHeight == old(peakHeight) && summaries == old(summaries)
          && heightToHash == old(heightToHash) && coins.table == old(coins.table)
    {
      result, err, forkHeight, changes := InvalidBlock, None, None, map[];
      if b.hash in records {
        result := AlreadyHaveBlock;
        return;
      }
      if b.height > 0 && b.prevHash !in records {
        result, err := DisconnectedBlock, Some(InvalidPrevBlockHash);
        return;
      }
      if b.height > 0 && records[b.prevHash].height + 1 != b.height {
        err := Some(InvalidHeight);
        return;
      }
      err, forkHeight, changes := ReceiveAttached(b, difficulty, hint);
      if err.None? {
        result := if forkHeight.Some? then NewPeak else AddedAsOrphan;
      }
    }

    /** A restart: index, summaries and peak are read back from the stored rows. Entries of the index
        above the peak, left by an abandoned chain, are gone; everything else is as it was. */
    method Reload()
      requires Valid()
      modifies this
      ensures Valid() && peak == old(peak) && records == old(records) && received == old(received)
      ensures peakHeight == old(peakHeight) && summaries == old(summaries)
      ensures heightToHash.Keys <= old(heightToHash.Keys)
      ensures forall h :: h in heightToHash ==> heightToHash[h] == old(heightToHash[h])
      ensures |heightToHash| == if peak.None? then 0 else peakHeight.value + 1
    {
      if peak.Some? { PeakReloaded(records, peak.value, heightToHash, summaries, coins.table, blocks.peakRows); }
      ReadBack();
    }

    method ReadBack()
      requires WellFormed(blocks.fullBlocks) && blocks.peakRows <= blocks.fullBlocks.Keys && |blocks.peakRows| <= 1
      modifies this`heightToHash, this`summaries, this`records, this`peakHeight
      ensures records == blocks.fullBlocks
      ensures blocks.peakRows == {} ==> heightToHash == map[] && summaries == map[] && peakHeight.None?
      ensures forall p :: p in blocks.peakRows ==>
        var chain := Chain(records, records[p]);
        && heightToHash == BS.HeightIndex(chain) && summaries == BS.Summaries(chain)
        && peakHeight == Some(records[p].height)
    {
      heightToHash, summaries := blocks.GetPeakHeightDicts();
      records := blocks.fullBlocks;
      if |blocks.peakRows| == 0 {
        peakHeight := None;
        return;
      }
      var p :| p in blocks.peakRows;
      BS.OnlyPeak(blocks.peakRows, p);
      peakHeight := Some(records[p].height);
    }
  }
}
