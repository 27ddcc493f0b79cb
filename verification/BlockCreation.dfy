/** The reward claims a farmer puts into a new transaction block. */
module BlockCreation {
  import opened Ledger
  import opened LedgerChain
  import opened LedgerInvariants
  import opened BlockTree
  import opened BodyValidation
  import Blockchain

  lemma {:induction false} DistinctSize(s: seq<Coin>)
    requires Distinct(s)
    ensures |Elements(s)| == |s|
  {
    if s != [] {
      var front, last := s[..|s| - 1], s[|s| - 1];
      DistinctSize(front);
      assert s == front + [last];
      assert Elements(s) == Elements(front) + {last};
      assert last !in front;
    }
  }

  /** Different claims, all of blocks above height `h`. */
  ghost predicate ClaimsAbove(claims: seq<Coin>, h: int) {
    && Distinct(claims)
    && forall i :: 0 <= i < |claims| ==> !claims[i].parent.CoinName? && claims[i].parent.height > h
  }

  lemma ClaimNext(claims: seq<Coin>, b: Block)
    requires ClaimsAbove(claims, b.height)
    ensures ClaimsAbove(claims + [PoolCoin(b), FarmerCoin(b)], b.height - 1)
    ensures Elements(claims + [PoolCoin(b), FarmerCoin(b)]) == Elements(claims) + {PoolCoin(b)} + {FarmerCoin(b)}
  {
  }

  lemma FirstClaims(b: Block)
    ensures ClaimsAbove([PoolCoin(b), FarmerCoin(b)], b.height - 1)
    ensures Elements([PoolCoin(b), FarmerCoin(b)]) == {PoolCoin(b), FarmerCoin(b)}
  {
  }

  /** Adds the rewards of the blocks between the last transaction block and the one before it. */
  method ClaimsBelow(m: Tree, start: Block, first: seq<Coin>, ghost chain: seq<Block>) returns (claims: seq<Coin>)
    requires Stored(m, chain) && chain != [] && chain[0].tx.Some? && LastTx(chain) > 0
    requires Walked(chain, LastTx(chain), start, Elements(first)) && ClaimsAbove(first, start.height)
    ensures Distinct(claims) && Elements(claims) == ExpectedRewards(chain)
  {
    ghost var p := LastTx(chain);
    var curr := start;
    claims := first;
    while curr.tx.None?
      invariant Walked(chain, p, curr, Elements(claims)) && ClaimsAbove(claims, curr.height)
      decreases curr.height
    {
      WalkStep(m, chain, p, curr, Elements(claims));
      ClaimNext(claims, curr);
      claims := claims + [PoolCoin(curr), FarmerCoin(curr)];
      assert StoredAt(m, chain, curr.height) && StoredAt(m, chain, curr.height - 1);
      curr := m[curr.prevHash];
    }
    WalkEnd(chain, curr, Elements(claims));
  }

  /** The creator's claims are exactly those the validator expects, each once. */
  method RewardClaims(m: Tree, prev: Option<Block>, ghost chain: seq<Block>) returns (claims: seq<Coin>)
    requires Stored(m, chain) && (chain != [] ==> chain[0].tx.Some?)
    requires prev == if chain == [] then None else Some(chain[|chain| - 1])
    ensures ClaimsOk(claims, ExpectedRewards(chain))
  {
    if prev.None? { return []; }
    var prevTx := Blockchain.PrevTxBlock(m, prev.value, chain);
    claims := ClaimsFrom(m, prevTx, chain);
    DistinctSize(claims);
  }

  method ClaimsFrom(m: Tree, prevTx: Block, ghost chain: seq<Block>) returns (claims: seq<Coin>)
    requires Stored(m, chain) && chain != [] && chain[0].tx.Some? && LastTx(chain) >= 0 &&
      prevTx == chain[LastTx(chain)]
    ensures Distinct(claims) && Elements(claims) == ExpectedRewards(chain)
  {
    WalkStart(m, chain, LastTx(chain));
    FirstClaims(prevTx);
    claims := [PoolCoin(prevTx), FarmerCoin(prevTx)];
    assert StoredAt(m, chain, LastTx(chain));
    if prevTx.height > 0 {
      assert StoredAt(m, chain, LastTx(chain) - 1);
      claims := ClaimsBelow(m, m[prevTx.prevHash], claims, chain);
    }
  }
}
