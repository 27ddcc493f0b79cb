/** Validation of a block body against the peak's coin store, for a block on any branch. */
module BodyValidation {
  import opened Ledger
  import opened CoinTable
  import opened LedgerChain
  import opened LedgerInvariants
  import opened ForkLookup
  import opened BlockTree
  import CS = CoinStore

  datatype Err =
    | InvalidPrevBlockHash
    | InvalidHeight
    | InvalidWeight
    | InvalidIsTransactionBlock
    | TimestampTooFarInPast
    | NotBlockButHasData
    | InvalidRewardCoins
    | InvalidTransactionsGeneratorRefsRoot
    | TooManyGeneratorRefs
    | FutureGeneratorRefs
    | CoinAmountNegative
    | CoinAmountExceedsMaximum
    | DuplicateOutput
    | DoubleSpend
    | DoubleSpendInFork
    | UnknownUnspent
    | MintingCoin
    | ReserveFeeConditionFailed
    | InvalidBlockFeeAmount
    | WrongPuzzleHash
    | ConditionFailed
    | NotAuthentic

  // ---- what an error says ----

  /** Removed minus added amounts. */
  function FeesOf(tx: TxBody): int {
    TotalAmount(Removals(tx.spends)) - TotalCoins(Additions(tx.spends))
  }

  predicate RefsBroken(err: Err, b: Block) {
    match err
    case InvalidTransactionsGeneratorRefsRoot => b.refs != [] && b.generator.None?
    case TooManyGeneratorRefs => |b.refs| > MAX_GENERATOR_REF_LIST_SIZE
    case FutureGeneratorRefs => exists i :: 0 <= i < |b.refs| && b.refs[i] >= b.height
    case _ => false
  }

  predicate AmountsBroken(err: Err, coins: seq<Coin>) {
    match err
    case CoinAmountNegative => exists i :: 0 <= i < |coins| && coins[i].amount < 0
    case CoinAmountExceedsMaximum => exists i :: 0 <= i < |coins| && coins[i].amount > MAX_COIN_AMOUNT
    case _ => false
  }

  ghost predicate FeesBroken(err: Err, b: Block, tx: TxBody) {
    match err
    case MintingCoin => FeesOf(tx) < 0
    case ReserveFeeConditionFailed => !ReservesNonNegative(tx.spends) || FeesOf(tx) < TotalReserved(tx.spends)
    case CoinAmountExceedsMaximum => FeesOf(tx) + BaseFarmerReward(b.height) > MAX_COIN_AMOUNT
    case InvalidBlockFeeAmount => tx.fees != FeesOf(tx)
    case _ => false
  }

  /** A spent coin that the block does not create and its ancestors do not offer. */
  ghost predicate Explains(err: Err, t: Table, b: Block, r: Id) {
    && !(r.CoinName? && r.coin in NewCoins(b))
    && match err
       case UnknownUnspent => r !in t
       case DoubleSpend => r in t && t[r].spent
       case DoubleSpendInFork => r in t && t[r].spent
       case _ => false
  }

  /** A spend with the wrong puzzle, or with a lock that does not hold yet. */
  ghost predicate SpendBroken(err: Err, b: Block, s: Spend, t: Table, prevTxHeight: nat) {
    && b.tx.Some? && s.coinName.CoinName? && Spendable(t, b, s.coinName)
    && match err
       case WrongPuzzleHash => s.coinName.coin.puzzleHash != s.puzzleHash
       case ConditionFailed => !LocksOpen(s, Confirmed(t, b, s.coinName), prevTxHeight, b.tx.value.timestamp)
       case _ => false
  }

  ghost predicate SpendsBroken(err: Err, b: Block, tx: TxBody, chain: seq<Block>) {
    exists i :: 0 <= i < |tx.spends| &&
      (Explains(err, Replay(chain), b, tx.spends[i].coinName) ||
       SpendBroken(err, b, tx.spends[i], Replay(chain), PrevTxHeight(chain)))
  }

  /** The rule of the body that the error names is broken on the block's own chain. */
  ghost predicate Breaks(err: Err, b: Block, chain: seq<Block>) {
    match b.tx
    case None => err == NotBlockButHasData && (b.generator.Some? || b.refs != [])
    case Some(tx) =>
      || (err == InvalidRewardCoins && !ClaimsOk(tx.claims, ExpectedRewards(chain)))
      || RefsBroken(err, b)
      || AmountsBroken(err, NewCoins(b))
      || (err == DuplicateOutput && !Distinct(NewCoins(b)))
      || (err == DoubleSpend && !Distinct(Removals(tx.spends)))
      || SpendsBroken(err, b, tx, chain)
      || FeesBroken(err, b, tx)
      || (err == NotAuthentic && !GeneratorOk(b, tx))
  }

  /** Every stored block is valid on top of its own ancestors. */
  ghost predicate ValidTree(m: Tree) {
    WellFormed(m) && forall k :: ValidAt(m, k)
  }

  ghost predicate ValidAt(m: Tree, k: Hash)
    requires WellFormed(m)
  {
    k in m ==> ValidChain(Chain(m, m[k]))
  }

  lemma AncestorsValid(m: Tree, b: Block)
    requires ValidTree(m) && Attached(m, b)
    ensures ValidChain(Ancestors(m, b))
  {
    assert ValidAt(m, b.prevHash);
  }

  // ---- reward claims ----

  lemma RewardCoinsBelow(chain: seq<Block>, low: int, high: int)
    requires -1 <= low - 1 && low <= high < |chain|
    ensures RewardCoins(chain, low - 1, high)
         == RewardCoins(chain, low, high) + {PoolCoin(chain[low]), FarmerCoin(chain[low])}
  {
    forall c ensures c in RewardCoins(chain, low - 1, high) <==>
      c in RewardCoins(chain, low, high) || c == PoolCoin(chain[low]) || c == FarmerCoin(chain[low]) {
    }
  }

  /** `coins` are the rewards above `curr` and up to `p`, with no transaction block in between. */
  ghost predicate Walked(chain: seq<Block>, p: nat, curr: Block, coins: set<Coin>)
    requires p < |chain|
  {
    && curr.height < p && chain[curr.height] == curr
    && (forall i :: curr.height < i < p ==> chain[i].tx.None?)
    && coins == RewardCoins(chain, curr.height, p)
  }

  lemma WalkStart(m: Tree, chain: seq<Block>, p: nat)
    requires Stored(m, chain) && p < |chain|
    ensures RewardCoins(chain, p - 1, p) == {PoolCoin(chain[p]), FarmerCoin(chain[p])}
    ensures 0 < p ==>
      && chain[p].prevHash in m
      && Walked(chain, p, m[chain[p].prevHash], {PoolCoin(chain[p]), FarmerCoin(chain[p])})
  {
    assert StoredAt(m, chain, p);
    RewardCoinsBelow(chain, p, p);
    if 0 < p { assert StoredAt(m, chain, p - 1); }
  }

  lemma WalkStep(m: Tree, chain: seq<Block>, p: nat, curr: Block, coins: set<Coin>)
    requires Stored(m, chain) && p < |chain| && chain[0].tx.Some?
    requires Walked(chain, p, curr, coins) && curr.tx.None?
    ensures curr.prevHash in m && m[curr.prevHash].height < curr.height
    ensures Walked(chain, p, m[curr.prevHash], coins + {PoolCoin(curr)} + {FarmerCoin(curr)})
  {
    assert StoredAt(m, chain, curr.height);
    assert StoredAt(m, chain, curr.height - 1);
    RewardCoinsBelow(chain, curr.height, p);
  }

  lemma {:induction false} WalkEnd(chain: seq<Block>, curr: Block, coins: set<Coin>)
    requires LastTx(chain) > 0 && Walked(chain, LastTx(chain), curr, coins) && curr.tx.Some?
    ensures coins == ExpectedRewards(chain)
  {
    assert chain[..LastTx(chain)][curr.height] == curr;
  }

  /** The reward coins a transaction block on top of `chain` has to claim, walked back from the
      previous transaction block to the one before it. */
  method ExpectedRewardCoins(m: Tree, prevTxHash: Hash, ghost chain: seq<Block>) returns (coins: set<Coin>)
    requires Stored(m, chain) && chain != [] && chain[0].tx.Some?
    requires LastTx(chain) >= 0 && prevTxHash == chain[LastTx(chain)].hash
    ensures coins == ExpectedRewards(chain)
  {
    ghost var p := LastTx(chain);
    assert StoredAt(m, chain, p);
    WalkStart(m, chain, p);
    var prevTx := m[prevTxHash];
    coins := {PoolCoin(prevTx), FarmerCoin(prevTx)};
    if prevTx.height > 0 {
      var curr := m[prevTx.prevHash];
      while curr.tx.None?
        invariant Walked(chain, p, curr, coins)
        decreases curr.height
      {
        WalkStep(m, chain, p, curr, coins);
        coins := coins + {PoolCoin(curr)};
        coins := coins + {FarmerCoin(curr)};
        curr := m[curr.prevHash];
      }
      WalkEnd(chain, curr, coins);
    }
  }

  // ---- coins of the branch above the fork ----

  function AddedFrom(coins: seq<Coin>, b: Block): (r: map<Id, Added>)
    requires b.tx.Some?
    ensures r.Keys == Names(Elements(coins))
  {
    map k | k in Names(Elements(coins)) :: Added(k.coin, b.height, b.tx.value.timestamp)
  }

  lemma AddedFromStep(coins: seq<Coin>, i: nat, b: Block)
    requires b.tx.Some? && i < |coins| && Distinct(coins)
    ensures CoinName(coins[i]) !in AddedFrom(coins[..i], b)
    ensures AddedFrom(coins[..i + 1], b)
         == AddedFrom(coins[..i], b)[CoinName(coins[i]) := Added(coins[i], b.height, b.tx.value.timestamp)]
  {
    assert coins[..i + 1] == coins[..i] + [coins[i]];
    assert coins[i] !in coins[..i];
  }

  lemma AddedUpdate(a: map<Id, Added>, b: map<Id, Added>, k: Id, v: Added)
    ensures (a + b)[k := v] == a + b[k := v]
  {
  }

  method CollectRemovals(removals: seq<Id>, removed: set<Id>) returns (removed': set<Id>)
    requires Distinct(removals) && Elements(removals) !! removed
    ensures removed' == removed + Elements(removals)
  {
    removed' := removed;
    for i := 0 to |removals|
      invariant removed' == removed + Elements(removals[..i])
    {
      assert removals[..i + 1] == removals[..i] + [removals[i]];
      assert removals[i] in Elements(removals) && removals[i] !in removals[..i];
      assert removals[i] !in removed';
      removed' := removed' + {removals[i]};
    }
    assert removals[..|removals|] == removals;
  }

  method CollectCoins(coins: seq<Coin>, b: Block, added: map<Id, Added>) returns (added': map<Id, Added>)
    requires b.tx.Some? && Distinct(coins) && Names(Elements(coins)) !! added.Keys
    ensures added' == added + AddedFrom(coins, b)
  {
    added' := added;
    for i := 0 to |coins|
      invariant added' == added + AddedFrom(coins[..i], b)
    {
      var k, v := CoinName(coins[i]), Added(coins[i], b.height, b.tx.value.timestamp);
      AddedFromStep(coins, i, b);
      AddedUpdate(added, AddedFrom(coins[..i], b), k, v);
      assert coins[i] in Elements(coins);
      assert k in Names(Elements(coins));
      assert k !in added';
      added' := added'[k := v];
    }
    assert coins[..|coins|] == coins;
  }

  /** Adds the removals and new coins of one block of the branch. No name may have been seen. */
  method CollectBlock(b: Block, added: map<Id, Added>, removed: set<Id>)
    returns (added': map<Id, Added>, removed': set<Id>)
    requires b.tx.Some? ==> Distinct(NewCoins(b)) && Distinct(Removals(b.tx.value.spends))
    requires AddedBy(b).Keys !! added.Keys && RemovedBy(b) !! removed
    ensures added' == added + AddedBy(b) && removed' == removed + RemovedBy(b)
  {
    added', removed' := added, removed;
    if b.tx.Some? {
      removed' := CollectRemovals(Removals(b.tx.value.spends), removed);
      added' := CollectCoins(NewCoins(b), b, added);
    }
  }

  /** What is collected from the tip down to height `n`, and what is still to come. */
  ghost predicate Collected(chain: seq<Block>, fork: int, n: nat, added: map<Id, Added>, removed: set<Id>)
    requires n <= |chain|
  {
    && Splits(AddedSince(chain, fork), AddedSince(chain[..n], fork), added)
    && RemovedSince(chain, fork) == RemovedSince(chain[..n], fork) + removed
    && removed !! RemovedSince(chain[..n], fork)
  }

  /** `all` is `low` and `high`, with no key in both. */
  ghost predicate Splits(all: map<Id, Added>, low: map<Id, Added>, high: map<Id, Added>) {
    all == low + high && low.Keys !! high.Keys
  }

  lemma SplitsMove(all: map<Id, Added>, low: map<Id, Added>, mid: map<Id, Added>, high: map<Id, Added>)
    requires Splits(all, low + mid, high) && low.Keys !! mid.Keys
    ensures Splits(all, low, high + mid) && mid.Keys !! high.Keys
  {
    assert mid.Keys <= (low + mid).Keys;
  }

  lemma {:induction false} SinceFront(chain: seq<Block>, fork: int, i: nat)
    requires -1 <= fork < i < |chain|
    ensures AddedSince(chain[..i + 1], fork) == AddedSince(chain[..i], fork) + AddedBy(chain[i])
    ensures RemovedSince(chain[..i + 1], fork) == RemovedSince(chain[..i], fork) + RemovedBy(chain[i])
  {
    assert chain[..i + 1][..i] == chain[..i];
  }

  lemma CollectStep(chain: seq<Block>, fork: int, i: nat, added: map<Id, Added>, removed: set<Id>)
    requires -1 <= fork < i < |chain| && Collected(chain, fork, i + 1, added, removed) && SeparateAt(chain, fork, i)
    ensures AddedBy(chain[i]).Keys !! added.Keys && RemovedBy(chain[i]) !! removed
    ensures Collected(chain, fork, i, added + AddedBy(chain[i]), removed + RemovedBy(chain[i]))
  {
    SinceFront(chain, fork, i);
    SplitsMove(AddedSince(chain, fork), AddedSince(chain[..i], fork), AddedBy(chain[i]), added);
  }

  /** Block `i` creates and spends each coin once, and none that the branch below it did. */
  ghost predicate SeparateAt(chain: seq<Block>, fork: int, i: nat)
    requires i < |chain|
  {
    && (chain[i].tx.Some? ==> Distinct(NewCoins(chain[i])) && Distinct(Removals(chain[i].tx.value.spends)))
    && AddedBy(chain[i]).Keys !! AddedSince(chain[..i], fork).Keys
    && RemovedBy(chain[i]) !! RemovedSince(chain[..i], fork)
  }

  ghost predicate Separate(chain: seq<Block>, fork: int) {
    forall i :: 0 <= i < |chain| && fork < i ==> SeparateAt(chain, fork, i)
  }

  lemma {:induction false} BlocksSeparate(chain: seq<Block>, fork: int)
    requires ValidChain(chain) && -1 <= fork
    ensures Separate(chain, fork)
  {
    forall i | 0 <= i < |chain| && fork < i ensures SeparateAt(chain, fork, i) {
      BlockValid(chain, i);
      CollectsOnce(chain, fork, i);
    }
  }

  predicate KeptAt(blocks: map<nat, Block>, chain: seq<Block>, h: nat) {
    h < |chain| && h in blocks && blocks[h] == chain[h]
  }

  /** The blocks below the tip down to the fork, by height. */
  method ReorgBlocks(m: Tree, prev: Block, fork: int, ghost chain: seq<Block>) returns (blocks: map<nat, Block>)
    requires Stored(m, chain) && chain != [] && prev == chain[|chain| - 1] && -1 <= fork < |chain|
    ensures KeptFrom(blocks, chain, fork)
    ensures fork != -1 ==> |blocks| == |chain| - 1 - fork
  {
    blocks := map[];
    var curr := prev;
    assert StoredAt(m, chain, |chain| - 1);
    while curr.height > fork
      invariant fork <= curr.height < |chain| && chain[curr.height] == curr
      invariant forall h: nat :: curr.height <= h < |chain| - 1 ==> KeptAt(blocks, chain, h)
      invariant forall h :: h in blocks ==> curr.height <= h
      invariant |blocks| == |chain| - 1 - curr.height
      decreases curr.height
    {
      if curr.height == 0 { break; }
      assert StoredAt(m, chain, curr.height) && StoredAt(m, chain, curr.height - 1);
      curr := m[curr.prevHash];
      ghost var before := blocks;
      blocks := blocks[curr.height := curr];
      forall h: nat | curr.height < h < |chain| - 1 ensures KeptAt(blocks, chain, h) {
        assert KeptAt(before, chain, h);
      }
    }
  }

  lemma {:induction false} CollectEnds(chain: seq<Block>, fork: int, n: nat, added: map<Id, Added>, removed: set<Id>)
    requires n <= |chain| && Collected(chain, fork, n, added, removed) && n <= fork + 1
    ensures added == AddedSince(chain, fork) && removed == RemovedSince(chain, fork)
  {
    assert AddedSince(chain[..n], fork) == map[];
  }

  lemma CollectStarts(chain: seq<Block>, fork: int)
    ensures Collected(chain, fork, |chain|, map[], {})
  {
    assert chain[..|chain|] == chain;
  }

  /** What the blocks from height `n` up created and spent, collected from the tip down. */
  function TopAdded(chain: seq<Block>, n: nat): map<Id, Added>
    decreases |chain| - n
  {
    if n >= |chain| then map[] else TopAdded(chain, n + 1) + AddedBy(chain[n])
  }

  function TopRemoved(chain: seq<Block>, n: nat): set<Id>
    decreases |chain| - n
  {
    if n >= |chain| then {} else TopRemoved(chain, n + 1) + RemovedBy(chain[n])
  }

  lemma {:induction false} CollectedTop(chain: seq<Block>, fork: int, n: nat)
    requires Separate(chain, fork) && -1 <= fork < n <= |chain|
    ensures Collected(chain, fork, n, TopAdded(chain, n), TopRemoved(chain, n))
    decreases |chain| - n
  {
    if n == |chain| {
      CollectStarts(chain, fork);
    } else {
      CollectedTop(chain, fork, n + 1);
      assert SeparateAt(chain, fork, n);
      CollectStep(chain, fork, n, TopAdded(chain, n + 1), TopRemoved(chain, n + 1));
    }
  }

  lemma {:induction false} TopIsSince(chain: seq<Block>, fork: int)
    requires Separate(chain, fork) && -1 <= fork < |chain|
    ensures TopAdded(chain, fork + 1) == AddedSince(chain, fork) &&
      TopRemoved(chain, fork + 1) == RemovedSince(chain, fork)
  {
    CollectedTop(chain, fork, fork + 1);
    CollectEnds(chain, fork, fork + 1, TopAdded(chain, fork + 1), TopRemoved(chain, fork + 1));
  }

  /** Adds block `n` of the chain to what is collected, and moves on to the block below it. */
  method CollectNext(curr: Block, added: map<Id, Added>, removed: set<Id>, fork: int, ghost chain: seq<Block>,
                     ghost n: nat)
    returns (added': map<Id, Added>, removed': set<Id>)
    requires -1 <= fork < n < |chain| && curr == chain[n] && Separate(chain, fork)
    requires TopCollected(chain, n + 1, added, removed)
    ensures TopCollected(chain, n, added', removed')
  {
    TopCollectedEqual(chain, n + 1, added, removed);
    CollectedTop(chain, fork, n + 1);
    assert SeparateAt(chain, fork, n);
    CollectStep(chain, fork, n, added, removed);
    added', removed' := CollectBlock(curr, added, removed);
    TopCollectedEqual(chain, n, added', removed');
  }

  /** The two collections, name by name. */
  ghost predicate TopCollected(chain: seq<Block>, n: nat, added: map<Id, Added>, removed: set<Id>) {
    forall k :: TopCollectedAt(chain, n, added, removed, k)
  }

  ghost predicate TopCollectedAt(chain: seq<Block>, n: nat, added: map<Id, Added>, removed: set<Id>, k: Id) {
    && (k in added <==> k in TopAdded(chain, n)) && (k in added ==> added[k] == TopAdded(chain, n)[k])
    && (k in removed <==> k in TopRemoved(chain, n))
  }

  lemma {:induction false} TopCollectedEqual(chain: seq<Block>, n: nat, added: map<Id, Added>, removed: set<Id>)
    ensures TopCollected(chain, n, added, removed) <==> added == TopAdded(chain, n) && removed == TopRemoved(chain, n)
  {
    if TopCollected(chain, n, added, removed) {
      forall k ensures k in added <==> k in TopAdded(chain, n)
               ensures k in added ==> added[k] == TopAdded(chain, n)[k]
               ensures k in removed <==> k in TopRemoved(chain, n)
      {
        assert TopCollectedAt(chain, n, added, removed, k);
      }
    }
  }

  ghost predicate KeptFrom(blocks: map<nat, Block>, chain: seq<Block>, fork: int) {
    forall h: nat :: fork <= h < |chain| - 1 ==> KeptAt(blocks, chain, h)
  }

  method CollectDown(prev: Block, reorgBlocks: map<nat, Block>, fork: int, ghost chain: seq<Block>)
    returns (added: map<Id, Added>, removed: set<Id>)
    requires Separate(chain, fork) && chain != [] && prev == chain[|chain| - 1] && -1 <= fork < |chain|
    requires KeptFrom(reorgBlocks, chain, fork) && forall i :: 0 <= i < |chain| ==> chain[i].height == i
    ensures TopCollected(chain, fork + 1, added, removed)
  {
    added, removed := map[], {};
    var curr := prev;
    ghost var n: nat := |chain| - 1;
    TopCollectedEqual(chain, |chain|, added, removed);
    while curr.height > fork
      invariant n < |chain| && curr == chain[n] && fork <= n
      invariant TopCollected(chain, n + 1, added, removed)
      decreases curr.height
    {
      added, removed := CollectNext(curr, added, removed, fork, chain, n);
      if curr.height == 0 {
        return;
      }
      n := n - 1;
      assert KeptAt(reorgBlocks, chain, n);
      curr := reorgBlocks[curr.height - 1];
    }
  }

  /** Collects what the branch created and spent above the fork, from its tip down. */
  method CollectFork(m: Tree, prev: Block, fork: int, ghost chain: seq<Block>)
    returns (added: map<Id, Added>, removed: set<Id>)
    requires Stored(m, chain) && Separate(chain, fork) && chain != [] && prev == chain[|chain| - 1]
    requires -1 <= fork < |chain|
    ensures added == AddedSince(chain, fork) && removed == RemovedSince(chain, fork)
  {
    var reorgBlocks := ReorgBlocks(m, prev, fork, chain);
    StoredHeights(m, chain);
    added, removed := CollectDown(prev, reorgBlocks, fork, chain);
    TopCollectedEqual(chain, fork + 1, added, removed);
    TopIsSince(chain, fork);
  }

  // ---- spent coins ----

  /** The peak's chain and the block's own, which agree up to the fork. */
  ghost predicate Branch(peak: seq<Block>, chain: seq<Block>, fork: int) {
    && ValidChain(peak) && ValidChain(chain)
    && -1 <= fork < |peak| && fork < |chain| && peak[..fork + 1] == chain[..fork + 1]
  }

  /** A looked-up record shows the coin, confirmation height and time of the block's own chain. */
  ghost predicate Agrees(rec: CoinRecord, t: Table, b: Block, r: Id) {
    && b.tx.Some? && Spendable(t, b, r) && r.CoinName? && rec.coin == r.coin
    && (rec.confirmed, rec.timestamp) == Confirmed(t, b, r)
  }

  method LookupCoin(store: CS.CoinStore, b: Block, own: set<Id>, r: Id, fork: int, added: map<Id, Added>,
                    removed: set<Id>, ghost peak: seq<Block>, ghost chain: seq<Block>)
    returns (err: Option<Err>, rec: CoinRecord)
    requires b.tx.Some? && own == Names(Elements(NewCoins(b)))
    requires Branch(peak, chain, fork) && store.Valid() && store.table == Replay(peak)
    requires added == AddedSince(chain, fork) && removed == RemovedSince(chain, fork)
    modifies store`cache
    ensures store.Valid()
    ensures err.None? ==> Agrees(rec, Replay(chain), b, r)
    ensures err.Some? ==> Explains(err.value, Replay(chain), b, r)
  {
    err, rec := None, CoinRecord(Coin(r, 0, 0), b.height, b.height, true, false, b.tx.value.timestamp);
    if r in own {
      rec := rec.(coin := r.coin);
      return;
    }
    LookupIsReplay(peak, chain, fork, r);
    LookupFails(peak, chain, fork, r);
    var unspent := store.GetCoinRecord(r);
    if unspent.Some? && unspent.value.confirmed <= fork {
      if unspent.value.spent && unspent.value.spentIndex <= fork {
        err := Some(DoubleSpend);
        return;
      }
      rec := unspent.value;
    } else {
      if r !in added {
        err := Some(UnknownUnspent);
        return;
      }
      AddedCoins(chain, fork, r);
      rec := CoinRecord(added[r].coin, added[r].height, 0, false, false, added[r].timestamp);
    }
    if r in removed {
      err := Some(DoubleSpendInFork);
    }
  }

  lemma {:induction false} LookupFails(peak: seq<Block>, chain: seq<Block>, fork: int, r: Id)
    requires Branch(peak, chain, fork)
    ensures
      var store, t := Replay(peak), Replay(chain);
      && (r in RemovedSince(chain, fork) ==> r in t && t[r].spent)
      && (r in store && store[r].confirmed <= fork ==> r in t)
      && (r in store && store[r].confirmed <= fork && store[r].spent && store[r].spentIndex <= fork ==> t[r].spent)
      && (!(r in store && store[r].confirmed <= fork) && r !in AddedSince(chain, fork) ==> r !in t)
  {
    RollbackIsReplay(peak, fork);
    SinceFork(chain, fork, r);
  }

  ghost predicate FoundAt(records: map<Id, CoinRecord>, t: Table, b: Block, r: Id)
    requires b.tx.Some?
  {
    r in records && Agrees(records[r], t, b, r)
  }

  /** A record has been found for each of the first `n` removals. */
  ghost predicate Found(records: map<Id, CoinRecord>, t: Table, b: Block, removals: seq<Id>, n: nat)
    requires b.tx.Some? && n <= |removals|
  {
    forall j :: 0 <= j < n ==> FoundAt(records, t, b, removals[j])
  }

  lemma FoundNext(records: map<Id, CoinRecord>, t: Table, b: Block, removals: seq<Id>, i: nat, rec: CoinRecord)
    requires b.tx.Some? && i < |removals| && Found(records, t, b, removals, i) && Agrees(rec, t, b, removals[i])
    ensures Found(records[removals[i] := rec], t, b, removals, i + 1)
  {
    var more := records[removals[i] := rec];
    forall j | 0 <= j < i + 1 ensures FoundAt(more, t, b, removals[j]) {
      if j < i { assert FoundAt(records, t, b, removals[j]); }
    }
  }

  method LookupRemovals(store: CS.CoinStore, b: Block, removals: seq<Id>, fork: int, added: map<Id, Added>,
                        removed: set<Id>, ghost peak: seq<Block>, ghost chain: seq<Block>)
    returns (err: Option<Err>, records: map<Id, CoinRecord>)
    requires b.tx.Some?
    requires Branch(peak, chain, fork) && store.Valid() && store.table == Replay(peak)
    requires added == AddedSince(chain, fork) && removed == RemovedSince(chain, fork)
    modifies store`cache
    ensures store.Valid()
    ensures err.None? ==> Found(records, Replay(chain), b, removals, |removals|)
    ensures err.Some? ==> exists i :: 0 <= i < |removals| && Explains(err.value, Replay(chain), b, removals[i])
  {
    err, records := None, map[];
    var own := Names(Elements(NewCoins(b)));
    for i := 0 to |removals|
      invariant err.None? && store.Valid() && store.table == Replay(peak)
      invariant Found(records, Replay(chain), b, removals, i)
    {
      var rec;
      err, rec := LookupCoin(store, b, own, removals[i], fork, added, removed, peak, chain);
      if err.Some? { return; }
      FoundNext(records, Replay(chain), b, removals, i, rec);
      records := records[removals[i] := rec];
    }
  }

  // ---- checks on the block alone ----

  method HasDuplicate<T(==)>(s: seq<T>) returns (duplicate: bool)
    ensures duplicate <==> !Distinct(s)
  {
    var seen: set<T> := {};
    for i := 0 to |s|
      invariant forall x :: x in seen <==> x in s[..i]
      invariant forall j, k :: 0 <= j < k < i ==> s[j] != s[k]
    {
      if s[i] in seen {
        var j :| 0 <= j < i && s[..i][j] == s[i];
        assert s[j] == s[i];
        return true;
      }
      forall j | 0 <= j < i ensures s[j] != s[i] { assert s[..i][j] == s[j]; }
      seen := seen + {s[i]};
      assert s[..i + 1] == s[..i] + [s[i]];
    }
    return false;
  }

  method CheckAmounts(coins: seq<Coin>) returns (err: Option<Err>)
    ensures err.None? <==> AmountsOk(coins)
    ensures err.Some? ==> AmountsBroken(err.value, coins)
  {
    for i := 0 to |coins|
      invariant forall j :: 0 <= j < i ==> 0 <= coins[j].amount <= MAX_COIN_AMOUNT
    {
      if coins[i].amount < 0 { return Some(CoinAmountNegative); }
      if coins[i].amount > MAX_COIN_AMOUNT { return Some(CoinAmountExceedsMaximum); }
    }
    return None;
  }

  method CheckRefs(b: Block) returns (err: Option<Err>)
    ensures err.None? <==> RefsOk(b)
    ensures err.Some? ==> RefsBroken(err.value, b)
  {
    if b.refs == [] { return None; }
    if b.generator.None? { return Some(InvalidTransactionsGeneratorRefsRoot); }
    if |b.refs| > MAX_GENERATOR_REF_LIST_SIZE { return Some(TooManyGeneratorRefs); }
    for i := 0 to |b.refs|
      invariant forall j :: 0 <= j < i ==> b.refs[j] < b.height
    {
      if b.refs[i] >= b.height { return Some(FutureGeneratorRefs); }
    }
    return None;
  }

  method SumRecords(removals: seq<Id>, records: map<Id, CoinRecord>) returns (total: int)
    requires forall i :: 0 <= i < |removals| ==>
      removals[i].CoinName? && removals[i] in records && records[removals[i]].coin == removals[i].coin
    ensures total == TotalAmount(removals)
  {
    total := 0;
    for i := 0 to |removals|
      invariant total + TotalAmount(removals[i..]) == TotalAmount(removals)
    {
      total := total + records[removals[i]].coin.amount;
      assert removals[i..][1..] == removals[i + 1..];
    }
  }

  method SumCoins(coins: seq<Coin>) returns (total: int)
    ensures total == TotalCoins(coins)
  {
    total := 0;
    for i := 0 to |coins|
      invariant total + TotalCoins(coins[i..]) == TotalCoins(coins)
    {
      total := total + coins[i].amount;
      assert coins[i..][1..] == coins[i + 1..];
    }
  }

  predicate ReservesOk(conditions: seq<Condition>) {
    forall j :: 0 <= j < |conditions| && conditions[j].ReserveFee? ==> 0 <= conditions[j].fee
  }

  method SumReserves(conditions: seq<Condition>) returns (ok: bool, total: int)
    ensures ok <==> ReservesOk(conditions)
    ensures ok ==> total == Reserved(conditions)
  {
    ok, total := true, 0;
    for i := 0 to |conditions|
      invariant ok && forall j :: 0 <= j < i && conditions[j].ReserveFee? ==> 0 <= conditions[j].fee
      invariant total + Reserved(conditions[i..]) == Reserved(conditions)
    {
      if conditions[i].ReserveFee? {
        if conditions[i].fee < 0 {
          ok := false;
          return;
        }
        total := total + conditions[i].fee;
      }
      assert conditions[i..][1..] == conditions[i + 1..];
    }
  }

  method SumAllReserves(spends: seq<Spend>) returns (ok: bool, total: int)
    ensures ok <==> ReservesNonNegative(spends)
    ensures ok ==> total == TotalReserved(spends)
  {
    ok, total := true, 0;
    for i := 0 to |spends|
      invariant ok && forall k :: 0 <= k < i ==> ReservesOk(spends[k].conditions)
      invariant total + TotalReserved(spends[i..]) == TotalReserved(spends)
    {
      var part;
      ok, part := SumReserves(spends[i].conditions);
      if !ok { return; }
      total := total + part;
      assert spends[i..][1..] == spends[i + 1..];
    }
    assert forall k :: 0 <= k < |spends| ==> ReservesOk(spends[k].conditions);
  }

  method ConditionsHold(s: Spend, rec: CoinRecord, prevTxHeight: nat, timestamp: nat) returns (ok: bool)
    ensures ok <==> LocksOpen(s, (rec.confirmed, rec.timestamp), prevTxHeight, timestamp)
  {
    for i := 0 to |s.conditions|
      invariant forall j :: 0 <= j < i ==>
        ConditionOk(s.conditions[j], (rec.confirmed, rec.timestamp), prevTxHeight, timestamp)
    {
      if !ConditionOk(s.conditions[i], (rec.confirmed, rec.timestamp), prevTxHeight, timestamp) { return false; }
    }
    return true;
  }

  ghost predicate AllAgree(spends: seq<Spend>, records: map<Id, CoinRecord>, t: Table, b: Block) {
    forall i :: 0 <= i < |spends| ==>
      spends[i].coinName in records && Agrees(records[spends[i].coinName], t, b, spends[i].coinName)
  }

  method CheckPuzzles(b: Block, spends: seq<Spend>, records: map<Id, CoinRecord>, ghost t: Table) returns (ok: bool)
    requires AllAgree(spends, records, t, b)
    ensures ok <==> forall i :: 0 <= i < |spends| ==> spends[i].coinName.coin.puzzleHash == spends[i].puzzleHash
  {
    for i := 0 to |spends|
      invariant forall j :: 0 <= j < i ==> spends[j].coinName.coin.puzzleHash == spends[j].puzzleHash
    {
      if records[spends[i].coinName].coin.puzzleHash != spends[i].puzzleHash { return false; }
    }
    return true;
  }

  method CheckSpend(b: Block, s: Spend, rec: CoinRecord, prevTxHeight: nat, ghost t: Table) returns (ok: bool)
    requires b.tx.Some? && Agrees(rec, t, b, s.coinName) && s.coinName.coin.puzzleHash == s.puzzleHash
    ensures ok <==> SpendAllowed(b, s, t, prevTxHeight)
  {
    ok := ConditionsHold(s, rec, prevTxHeight, b.tx.value.timestamp);
  }

  method CheckSpends(b: Block, spends: seq<Spend>, records: map<Id, CoinRecord>, prevTxHeight: nat, ghost t: Table)
    returns (err: Option<Err>)
    requires b.tx.Some? && AllAgree(spends, records, t, b)
    ensures err.None? <==> SpendsOk(b, spends, t, prevTxHeight)
    ensures err.Some? ==> exists i :: 0 <= i < |spends| && SpendBroken(err.value, b, spends[i], t, prevTxHeight)
  {
    var puzzles := CheckPuzzles(b, spends, records, t);
    if !puzzles {
      ghost var i :| 0 <= i < |spends| && spends[i].coinName.coin.puzzleHash != spends[i].puzzleHash;
      assert !SpendAllowed(b, spends[i], t, prevTxHeight);
      assert SpendBroken(WrongPuzzleHash, b, spends[i], t, prevTxHeight);
      return Some(WrongPuzzleHash);
    }
    for i := 0 to |spends|
      invariant forall j :: 0 <= j < i ==> SpendAllowed(b, spends[j], t, prevTxHeight)
    {
      var ok := CheckSpend(b, spends[i], records[spends[i].coinName], prevTxHeight, t);
      if !ok {
        assert SpendBroken(ConditionFailed, b, spends[i], t, prevTxHeight);
        return Some(ConditionFailed);
      }
    }
    return None;
  }

  method CheckFees(b: Block, tx: TxBody, removals: seq<Id>, records: map<Id, CoinRecord>) returns (err: Option<Err>)
    requires removals == Removals(tx.spends)
    requires forall i :: 0 <= i < |removals| ==>
      removals[i].CoinName? && removals[i] in records && records[removals[i]].coin == removals[i].coin
    ensures err.None? <==> FeesOk(b, tx)
    ensures err.Some? ==> FeesBroken(err.value, b, tx)
  {
    var removed := SumRecords(removals, records);
    var added := SumCoins(Additions(tx.spends));
    if removed < added { return Some(MintingCoin); }
    var fees := removed - added;
    var ok, reserved := SumAllReserves(tx.spends);
    if !ok { return Some(ReserveFeeConditionFailed); }
    if fees < reserved { return Some(ReserveFeeConditionFailed); }
    if fees + BaseFarmerReward(b.height) > MAX_COIN_AMOUNT { return Some(CoinAmountExceedsMaximum); }
    if tx.fees != fees { return Some(InvalidBlockFeeAmount); }
    return None;
  }

  // ---- the whole body ----

  /** The coin table is that of the peak; without a peak nothing is stored. */
  ghost predicate PeakTable(m: Tree, peak: Option<Block>, t: Table)
    requires WellFormed(m)
  {
    match peak
    case None => m == map[] && t == map[]
    case Some(p) => p.hash in m && m[p.hash] == p && t == Replay(Chain(m, p))
  }

  ghost function PeakChain(m: Tree, peak: Option<Block>): seq<Block>
    requires WellFormed(m) && (peak.Some? ==> peak.value.hash in m && m[peak.value.hash] == peak.value)
  {
    if peak.None? then [] else Chain(m, peak.value)
  }

  method ForkWithPeak(m: Tree, peak: Option<Block>, b: Block, hint: Option<nat>, ghost t: Table) returns (fork: int)
    requires ValidTree(m) && Attached(m, b) && PeakTable(m, peak, t)
    requires hint.Some? && peak.Some? ==> IsFork(Chain(m, peak.value), Ancestors(m, b), hint.value)
    ensures Branch(PeakChain(m, peak), Ancestors(m, b), fork)
    ensures peak.Some? && b.height > 0 ==> IsFork(Chain(m, peak.value), Ancestors(m, b), fork)
  {
    AncestorsValid(m, b);
    assert peak.Some? ==> ValidAt(m, peak.value.hash);
    if peak.None? || b.height == 0 {
      fork := -1;
    } else if hint.Some? {
      fork := hint.value;
    } else {
      fork := FindForkPoint(m, peak.value, m[b.prevHash]);
    }
  }

  /** Accepts the body exactly when it is right on top of the replay of the block's own ancestors,
      although only the coins of the peak's chain are stored. */
  method ValidateBody(m: Tree, store: CS.CoinStore, peak: Option<Block>, b: Block, hint: Option<nat>)
    returns (err: Option<Err>)
    requires ValidTree(m) && Attached(m, b) && HeaderOk(b, Ancestors(m, b))
    requires store.Valid() && PeakTable(m, peak, store.table)
    requires hint.Some? && peak.Some? ==> IsFork(Chain(m, peak.value), Ancestors(m, b), hint.value)
    modifies store`cache
    ensures store.Valid()
    ensures err.None? <==> BodyOk(b, Ancestors(m, b))
    ensures err.Some? ==> Breaks(err.value, b, Ancestors(m, b))
  {
    ghost var chain := Ancestors(m, b);
    if b.tx.None? {
      if b.generator.Some? || |b.refs| > 0 { return Some(NotBlockButHasData); }
      return None;
    }
    var tx := b.tx.value;
    err := CheckClaims(m, b);
    if err.Some? { return; }
    err := CheckRefs(b);
    if err.Some? { return; }
    err := CheckAmounts(NewCoins(b));
    if err.Some? { return; }
    var duplicate := HasDuplicate(NewCoins(b));
    if duplicate { return Some(DuplicateOutput); }
    duplicate := HasDuplicate(Removals(tx.spends));
    if duplicate { return Some(DoubleSpend); }
    err := CheckCoins(m, store, peak, b, hint);
    if err.Some? { return; }
    if !GeneratorOk(b, tx) { return Some(NotAuthentic); }
  }

  method CheckClaims(m: Tree, b: Block) returns (err: Option<Err>)
    requires ValidTree(m) && Attached(m, b) && HeaderOk(b, Ancestors(m, b)) && b.tx.Some?
    ensures err.None? <==> ClaimsOk(b.tx.value.claims, ExpectedRewards(Ancestors(m, b)))
    ensures err.Some? ==> err.value == InvalidRewardCoins
  {
    ghost var chain := Ancestors(m, b);
    AncestorsValid(m, b);
    AncestorsStored(m, b);
    var expected: set<Coin> := {};
    if b.height > 0 {
      GenesisIsTx(chain);
      expected := ExpectedRewardCoins(m, b.tx.value.prevTxHash, chain);
    }
    if Elements(b.tx.value.claims) != expected { return Some(InvalidRewardCoins); }
    if |b.tx.value.claims| != |expected| { return Some(InvalidRewardCoins); }
    return None;
  }

  lemma {:induction false} GenesisIsTx(chain: seq<Block>)
    requires ValidChain(chain) && chain != []
    ensures chain[0].tx.Some?
  {
    BlockValid(chain, 0);
  }

  /** Looks up what the block spends; `fork` is where its branch leaves the peak's chain. */
  method FindSpentCoins(m: Tree, store: CS.CoinStore, b: Block, fork: int, ghost peak: seq<Block>,
                        ghost chain: seq<Block>)
    returns (err: Option<Err>, records: map<Id, CoinRecord>)
    requires Stored(m, chain) && |chain| == b.height && b.tx.Some?
    requires b.height > 0 ==> b.prevHash in m && m[b.prevHash] == chain[b.height - 1]
    requires store.Valid() && Branch(peak, chain, fork) && store.table == Replay(peak)
    modifies store`cache
    ensures store.Valid()
    ensures err.None? ==> AllAgree(b.tx.value.spends, records, Replay(chain), b)
    ensures err.Some? ==>
      exists i :: 0 <= i < |b.tx.value.spends| && Explains(err.value, Replay(chain), b, b.tx.value.spends[i].coinName)
  {
    var added: map<Id, Added>, removed: set<Id> := map[], {};
    if b.height > 0 {
      BlocksSeparate(chain, fork);
      added, removed := CollectFork(m, m[b.prevHash], fork, chain);
    }
    var removals := Removals(b.tx.value.spends);
    err, records := LookupRemovals(store, b, removals, fork, added, removed, peak, chain);
  }

  lemma PrevTxFound(m: Tree, b: Block)
    requires ValidTree(m) && Attached(m, b) && HeaderOk(b, Ancestors(m, b)) && b.tx.Some? && b.height > 0
    ensures b.tx.value.prevTxHash in m && m[b.tx.value.prevTxHash].height == PrevTxHeight(Ancestors(m, b))
  {
    AncestorsStored(m, b);
    assert StoredAt(m, Ancestors(m, b), LastTx(Ancestors(m, b)));
  }

  /** Everything that needs the spent coins: existence, fees, puzzles and locks. */
  method CheckCoins(m: Tree, store: CS.CoinStore, peak: Option<Block>, b: Block, hint: Option<nat>)
    returns (err: Option<Err>)
    requires ValidTree(m) && Attached(m, b) && HeaderOk(b, Ancestors(m, b)) && b.tx.Some?
    requires store.Valid() && PeakTable(m, peak, store.table)
    requires hint.Some? && peak.Some? ==> IsFork(Chain(m, peak.value), Ancestors(m, b), hint.value)
    modifies store`cache
    ensures store.Valid()
    ensures err.None? <==>
      && SpendsOk(b, b.tx.value.spends, Replay(Ancestors(m, b)), PrevTxHeight(Ancestors(m, b)))
      && FeesOk(b, b.tx.value)
    ensures err.Some? ==>
      SpendsBroken(err.value, b, b.tx.value, Ancestors(m, b)) || FeesBroken(err.value, b, b.tx.value)
  {
    var tx := b.tx.value;
    ghost var chain := Ancestors(m, b);
    AncestorsStored(m, b);
    var fork := ForkWithPeak(m, peak, b, hint, store.table);
    var prevTxHeight: nat := 0;
    if b.height > 0 {
      PrevTxFound(m, b);
      prevTxHeight := m[tx.prevTxHash].height;
    }
    var records;
    err, records := FindSpentCoins(m, store, b, fork, PeakChain(m, peak), chain);
    if err.Some? {
      ghost var i :| 0 <= i < |tx.spends| && Explains(err.value, Replay(chain), b, tx.spends[i].coinName);
      assert !SpendAllowed(b, tx.spends[i], Replay(chain), prevTxHeight);
      return;
    }
    err := CheckFees(b, tx, Removals(tx.spends), records);
    if err.Some? { return; }
    err := CheckSpends(b, tx.spends, records, prevTxHeight, Replay(chain));
  }
}
