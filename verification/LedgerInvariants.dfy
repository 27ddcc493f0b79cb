/** What every valid chain keeps: coins enter the table once, rewards are claimed once per height,
    and a rollback undoes exactly the blocks above it. */
module LedgerInvariants {
  import opened Ledger
  import opened CoinTable
  import opened LedgerChain

  /** Row facts for the replay of a chain of `n` blocks. */
  ghost predicate RowOk(t: Table, k: Id, n: nat)
    requires k in t
  {
    && k.CoinName? && t[k].coin == k.coin
    && t[k].confirmed < n && t[k].spentIndex < n
    && (t[k].spent <==> 0 < t[k].spentIndex)
    && (k.coin.parent.CoinName? ==> k.coin.parent in t && t[k.coin.parent].spent)
  }

  ghost predicate RowsOk(t: Table, n: nat) {
    forall k :: k in t ==> RowOk(t, k, n)
  }

  /** Height of the last block whose rewards are claimed in `chain`, or -1. */
  function LastClaimed(chain: seq<Block>): (p: int)
    ensures -1 <= p < |chain|
  {
    if LastTx(chain) < 0 then -1 else LastTx(chain[..LastTx(chain)])
  }

  /** A coin whose parent is no coin is the reward of a claimed height. */
  ghost predicate RewardRowOk(k: Id, chain: seq<Block>, claimed: int)
    requires -1 <= claimed < |chain| && k.CoinName?
  {
    match k.coin.parent
    case CoinName(_) => true
    case PoolParent(h) => h <= claimed && k.coin == PoolCoin(chain[h])
    case FarmerParent(h) => h <= claimed && k.coin == FarmerCoin(chain[h])
  }

  ghost predicate Claimed(t: Table, b: Block) {
    CoinName(PoolCoin(b)) in t && CoinName(FarmerCoin(b)) in t
  }

  /** A reward coin is in the table exactly when its height is claimed, and then it is the coin the
      block at that height earned. */
  ghost predicate RewardsOf(t: Table, chain: seq<Block>, claimed: int)
    requires -1 <= claimed < |chain|
  {
    && (forall k :: k in t && k.CoinName? ==> RewardRowOk(k, chain, claimed))
    && (forall i :: 0 <= i <= claimed ==> Claimed(t, chain[i]))
  }

  // ---- one block on top of a chain whose invariants hold ----

  ghost predicate Extends(b: Block, chain: seq<Block>) {
    && ValidChain(chain) && HeaderOk(b, chain) && BodyOk(b, chain)
    && RowsOk(Replay(chain), |chain|)
    && RewardsOf(Replay(chain), chain, LastClaimed(chain))
  }

  lemma {:induction false} HeightsAreIndices(chain: seq<Block>)
    requires ValidChain(chain)
    ensures forall i :: 0 <= i < |chain| ==> chain[i].height == i
  {
    forall i | 0 <= i < |chain| ensures chain[i].height == i { BlockValid(chain, i); }
  }

  /** Claims start right above what is already claimed. */
  lemma {:induction false} ClaimWindow(chain: seq<Block>)
    requires ValidChain(chain) && chain != []
    ensures PrevLastTx(chain) == LastClaimed(chain)
  {
    LastTxExists(chain);
    if LastTx(chain) == 0 { assert chain[..0] == []; }
  }

  /** An expected reward belongs to a height above what is claimed. */
  lemma {:induction false} ExpectedReward(chain: seq<Block>, c: Coin)
    requires ValidChain(chain) && c in ExpectedRewards(chain)
    ensures !c.parent.CoinName?
    ensures LastClaimed(chain) < c.parent.height <= LastTx(chain)
    ensures c == if c.parent.PoolParent? then PoolCoin(chain[c.parent.height]) else FarmerCoin(chain[c.parent.height])
  {
    ClaimWindow(chain);
    HeightsAreIndices(chain);
  }

  lemma {:induction false} ClaimIsNew(b: Block, chain: seq<Block>, c: Coin)
    requires Extends(b, chain) && b.tx.Some? && c in b.tx.value.claims
    ensures !c.parent.CoinName? && CoinName(c) !in Replay(chain)
  {
    assert c in Elements(b.tx.value.claims);
    ExpectedReward(chain, c);
  }

  /** A coin the block creates is not in the table yet. If it were, its parent would already be spent, so
      the block could spend that parent again only as a coin it creates itself; and the
      parent is a smaller term. */
  lemma {:induction false} AdditionIsNew(b: Block, chain: seq<Block>, c: Coin)
    requires Extends(b, chain) && b.tx.Some? && c in Additions(b.tx.value.spends)
    ensures c.parent.CoinName? && CoinName(c) !in Replay(chain)
    decreases c
  {
    var tx := b.tx.value;
    AdditionHasParent(tx.spends, c);
    var i :| 0 <= i < |tx.spends| && tx.spends[i].coinName == c.parent;
    assert SpendAllowed(b, tx.spends[i], Replay(chain), PrevTxHeight(chain));
    var p := c.parent.coin;
    if CoinName(c) in Replay(chain) {
      assert RowOk(Replay(chain), CoinName(c), |chain|);
      if p in Additions(tx.spends) { AdditionIsNew(b, chain, p); } else { ClaimIsNew(b, chain, p); }
      assert false;
    }
  }

  /** The primary-key insert never meets a row that is already there. */
  lemma {:induction false} NewCoinsAreNew(b: Block, chain: seq<Block>)
    requires Extends(b, chain)
    ensures forall c :: c in NewCoins(b) ==> CoinName(c) !in Replay(chain)
  {
    forall c | c in NewCoins(b) ensures CoinName(c) !in Replay(chain) {
      if c in Additions(b.tx.value.spends) { AdditionIsNew(b, chain, c); } else { ClaimIsNew(b, chain, c); }
    }
  }

  /** Genesis spends nothing: with an empty table every spent coin would need a spent parent. */
  lemma {:induction false} GenesisSpendsNothing(b: Block, r: Id)
    requires HeaderOk(b, []) && BodyOk(b, [])
    requires r in Removals(b.tx.value.spends)
    ensures false
    decreases r
  {
    var tx := b.tx.value;
    var i :| 0 <= i < |tx.spends| && tx.spends[i].coinName == r;
    assert SpendAllowed(b, tx.spends[i], Replay([]), PrevTxHeight([]));
    assert ExpectedRewards([]) == {};
    assert r.coin !in Elements(tx.claims);
    AdditionHasParent(tx.spends, r.coin);
    GenesisSpendsNothing(b, r.coin.parent);
  }

  /** Keys and spent flags after one transaction block. */
  lemma {:induction false} TxRows(b: Block, chain: seq<Block>, k: Id)
    requires Extends(b, chain) && b.tx.Some?
    ensures
      var t, u := Replay(chain), ApplyBlock(Replay(chain), b);
      && (k in u <==> k in t || (k.CoinName? && k.coin in NewCoins(b)))
      && (k in u && k in Removals(b.tx.value.spends) ==>
            && u[k].spent && u[k].spentIndex == b.height
            && (k in t ==> u[k] == MarkSpent(t[k], b.height)))
      && (k in u && k !in Removals(b.tx.value.spends) ==>
            if k in t then u[k] == t[k]
            else !u[k].spent && u[k].spentIndex == 0)
      && (k in u && k in t ==> u[k].coin == t[k].coin && u[k].confirmed == t[k].confirmed
                               && u[k].timestamp == t[k].timestamp && (t[k].spent ==> u[k].spent))
      && (k in u && k !in t ==> u[k].coin == k.coin && u[k].confirmed == b.height
                                && u[k].timestamp == b.tx.value.timestamp)
  {
    NewCoinsAreNew(b, chain);
    var t, tx := Replay(chain), b.tx.value;
    if k in t && k.CoinName? { assert k.coin !in NewCoins(b); }
    if k in t && k in Removals(tx.spends) {
      var i :| 0 <= i < |tx.spends| && tx.spends[i].coinName == k;
      assert SpendAllowed(b, tx.spends[i], t, PrevTxHeight(chain));
    }
  }

  /** A removal names a coin that is in the table after the block. */
  lemma {:induction false} RemovalPresent(b: Block, chain: seq<Block>, r: Id)
    requires Extends(b, chain) && b.tx.Some? && r in Removals(b.tx.value.spends)
    ensures r in ApplyBlock(Replay(chain), b)
    ensures r in Replay(chain) ==> !Replay(chain)[r].spent
  {
    var tx := b.tx.value;
    var i :| 0 <= i < |tx.spends| && tx.spends[i].coinName == r;
    assert SpendAllowed(b, tx.spends[i], Replay(chain), PrevTxHeight(chain));
    NewCoinsAreNew(b, chain);
    TxRows(b, chain, r);
  }

  lemma {:induction false} RowStep(b: Block, chain: seq<Block>, k: Id)
    requires Extends(b, chain) && k in ApplyBlock(Replay(chain), b)
    ensures RowOk(ApplyBlock(Replay(chain), b), k, |chain| + 1)
  {
    var t := Replay(chain);
    if k in t { assert RowOk(t, k, |chain|); }
    if b.tx.Some? {
      var tx := b.tx.value;
      TxRows(b, chain, k);
      if chain == [] && k in Removals(tx.spends) { GenesisSpendsNothing(b, k); }
      if k.coin.parent.CoinName? {
        TxRows(b, chain, k.coin.parent);
        if k !in t {
          if k.coin in tx.claims { ClaimIsNew(b, chain, k.coin); }
          AdditionHasParent(tx.spends, k.coin);
          RemovalPresent(b, chain, k.coin.parent);
        }
      }
    }
  }

  /** What is claimed grows only with a transaction block, up to the one before it. */
  lemma {:induction false} ClaimedStep(b: Block, chain: seq<Block>)
    requires ValidChain(chain)
    ensures LastClaimed(chain + [b]) == if b.tx.Some? then LastTx(chain) else LastClaimed(chain)
    ensures LastClaimed(chain) <= LastTx(chain)
  {
    var all := chain + [b];
    assert all[..|chain|] == chain;
    if b.tx.None? && 0 <= LastTx(chain) { assert all[..LastTx(all)] == chain[..LastTx(chain)]; }
  }

  lemma {:induction false} RewardRowStep(b: Block, chain: seq<Block>, k: Id)
    requires Extends(b, chain) && k in ApplyBlock(Replay(chain), b) && k.CoinName?
    ensures RewardRowOk(k, chain + [b], LastClaimed(chain + [b]))
  {
    ClaimedStep(b, chain);
    if k in Replay(chain) {
      assert RewardRowOk(k, chain, LastClaimed(chain));
    } else {
      TxRows(b, chain, k);
      if k.coin in Additions(b.tx.value.spends) {
        AdditionIsNew(b, chain, k.coin);
      } else {
        assert k.coin in Elements(b.tx.value.claims);
        ExpectedReward(chain, k.coin);
      }
    }
  }

  lemma {:induction false} ClaimedRowStep(b: Block, chain: seq<Block>, i: nat)
    requires Extends(b, chain) && i <= LastClaimed(chain + [b])
    ensures Claimed(ApplyBlock(Replay(chain), b), (chain + [b])[i])
  {
    ClaimedStep(b, chain);
    assert (chain + [b])[i] == chain[i];
    if i <= LastClaimed(chain) {
      assert Claimed(Replay(chain), chain[i]);
    } else {
      ClaimWindow(chain);
      assert PoolCoin(chain[i]) in Elements(b.tx.value.claims);
      assert FarmerCoin(chain[i]) in Elements(b.tx.value.claims);
    }
  }

  lemma {:induction false} RewardStep(b: Block, chain: seq<Block>)
    requires Extends(b, chain)
    ensures RewardsOf(ApplyBlock(Replay(chain), b), chain + [b], LastClaimed(chain + [b]))
  {
    var u := ApplyBlock(Replay(chain), b);
    forall k | k in u && k.CoinName? ensures RewardRowOk(k, chain + [b], LastClaimed(chain + [b])) {
      RewardRowStep(b, chain, k);
    }
    forall i | 0 <= i <= LastClaimed(chain + [b]) ensures Claimed(u, (chain + [b])[i]) {
      ClaimedRowStep(b, chain, i);
    }
  }

  /** The invariants hold of the replay of every valid chain. */
  lemma {:induction false} Invariants(chain: seq<Block>)
    requires ValidChain(chain)
    ensures RowsOk(Replay(chain), |chain|)
    ensures RewardsOf(Replay(chain), chain, LastClaimed(chain))
  {
    if chain != [] {
      var front, b := chain[..|chain| - 1], chain[|chain| - 1];
      Invariants(front);
      forall k | k in Replay(chain) ensures RowOk(Replay(chain), k, |chain|) { RowStep(b, front, k); }
      RewardStep(b, front);
      assert front + [b] == chain;
    }
  }

  lemma {:induction false} ExtendsValid(b: Block, chain: seq<Block>)
    requires ValidChain(chain) && HeaderOk(b, chain) && BodyOk(b, chain)
    ensures Extends(b, chain)
    ensures ValidChain(chain + [b]) && Replay(chain + [b]) == ApplyBlock(Replay(chain), b)
  {
    Invariants(chain);
    assert (chain + [b])[..|chain|] == chain;
  }

  // ---- rollback ----

  lemma {:induction false} RowAboveBlock(b: Block, chain: seq<Block>, height: int, k: Id)
    requires Extends(b, chain) && -1 <= height < b.height && b.tx.Some?
    ensures RowAbove(Replay(chain), ApplyBlock(Replay(chain), b), height, k)
  {
    TxRows(b, chain, k);
    if k in Replay(chain) && k in Removals(b.tx.value.spends) {
      assert RowOk(Replay(chain), k, |chain|);
      RemovalPresent(b, chain, k);
    }
  }

  /** Rolling back past a block's height forgets the block. */
  lemma {:induction false} RollbackStep(b: Block, chain: seq<Block>, height: int)
    requires Extends(b, chain) && -1 <= height < b.height
    ensures Rollback(ApplyBlock(Replay(chain), b), height) == Rollback(Replay(chain), height)
  {
    if b.tx.Some? {
      forall k ensures RowAbove(Replay(chain), ApplyBlock(Replay(chain), b), height, k) {
        RowAboveBlock(b, chain, height, k);
      }
      RollbackForgets(Replay(chain), ApplyBlock(Replay(chain), b), height);
    }
  }

  lemma {:induction false} RollbackNothing(chain: seq<Block>)
    requires ValidChain(chain)
    ensures Rollback(Replay(chain), |chain| - 1) == Replay(chain)
  {
    Invariants(chain);
    var t := Replay(chain);
    forall k | k in t ensures t[k].confirmed <= |chain| - 1 && t[k].spentIndex <= |chain| - 1 {
      assert RowOk(t, k, |chain|);
    }
    RollbackAbove(t, |chain| - 1);
  }

  /** Rolling the table of a chain back to any height, -1 included, gives the replay up to there. */
  lemma {:induction false} RollbackIsReplay(chain: seq<Block>, height: int)
    requires ValidChain(chain) && -1 <= height < |chain|
    ensures Rollback(Replay(chain), height) == Replay(chain[..height + 1])
  {
    if height == |chain| - 1 {
      RollbackNothing(chain);
      assert chain[..height + 1] == chain;
    } else {
      var front, b := chain[..|chain| - 1], chain[|chain| - 1];
      ExtendsValid(b, front);
      RollbackStep(b, front, height);
      RollbackIsReplay(front, height);
      assert front[..height + 1] == chain[..height + 1];
    }
  }
}
