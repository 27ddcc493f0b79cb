/** Conservation of value over every valid chain. */
module Supply {
  import opened Ledger
  import opened CoinTable
  import opened LedgerChain
  import opened LedgerInvariants

  ghost function Sum(s: set<Id>): int {
    if s == {} then 0 else var k :| k in s; Amount(k) + Sum(s - {k})
  }

  lemma {:induction false} SumTake(s: set<Id>, x: Id)
    requires x in s
    ensures Sum(s) == Amount(x) + Sum(s - {x})
    decreases s
  {
    var k :| k in s && Sum(s) == Amount(k) + Sum(s - {k});
    if k != x {
      SumTake(s - {k}, x);
      SumTake(s - {x}, k);
      assert s - {k} - {x} == s - {x} - {k};
    }
  }

  lemma {:induction false} SumUnion(a: set<Id>, b: set<Id>)
    requires a !! b
    ensures Sum(a + b) == Sum(a) + Sum(b)
    decreases b
  {
    if b == {} {
      assert a + b == a;
    } else {
      var k :| k in b;
      SumUnion(a, b - {k});
      SumTake(b, k);
      SumTake(a + b, k);
      assert a + b - {k} == a + (b - {k});
    }
  }

  lemma {:induction false} SumRemovals(s: seq<Id>)
    requires Distinct(s)
    ensures Sum(Elements(s)) == TotalAmount(s)
  {
    if s != [] {
      SumRemovals(s[1..]);
      assert s[0] !in s[1..];
      assert Elements(s) - {s[0]} == Elements(s[1..]);
      SumTake(Elements(s), s[0]);
    }
  }

  lemma {:induction false} SumCoins(s: seq<Coin>)
    requires Distinct(s)
    ensures Sum(Names(Elements(s))) == TotalCoins(s)
  {
    if s != [] {
      SumCoins(s[1..]);
      assert s[0] !in s[1..];
      assert Names(Elements(s)) - {CoinName(s[0])} == Names(Elements(s[1..]));
      SumTake(Names(Elements(s)), CoinName(s[0]));
    }
  }

  lemma {:induction false} TotalCoinsAppend(a: seq<Coin>, b: seq<Coin>)
    ensures TotalCoins(a + b) == TotalCoins(a) + TotalCoins(b)
  {
    if a == [] {
      assert a + b == b;
    } else {
      TotalCoinsAppend(a[1..], b);
      assert (a + b)[1..] == a[1..] + b;
    }
  }

  function Unspent(t: Table): set<Id> {
    set k | k in t && !t[k].spent
  }

  /** Value a block moves: what it creates comes in, what it spends goes out. */
  lemma {:induction false} UnspentStep(b: Block, chain: seq<Block>)
    requires Extends(b, chain) && b.tx.Some?
    ensures Sum(Unspent(ApplyBlock(Replay(chain), b)))
         == Sum(Unspent(Replay(chain))) + TotalCoins(b.tx.value.claims) - b.tx.value.fees
  {
    var tx := b.tx.value;
    var before, after := Unspent(Replay(chain)), Unspent(ApplyBlock(Replay(chain), b));
    var added, gone := Names(Elements(NewCoins(b))), Elements(Removals(tx.spends));
    UnspentSets(b, chain);
    SumUnion(before, added);
    SumUnion(after, gone);
    SumCoins(NewCoins(b));
    TotalCoinsAppend(Additions(tx.spends), tx.claims);
    SumRemovals(Removals(tx.spends));
  }

  lemma {:induction false} UnspentSets(b: Block, chain: seq<Block>)
    requires Extends(b, chain) && b.tx.Some?
    ensures
      var before, after := Unspent(Replay(chain)), Unspent(ApplyBlock(Replay(chain), b));
      var added, gone := Names(Elements(NewCoins(b))), Elements(Removals(b.tx.value.spends));
      before !! added && after !! gone && before + added == after + gone
  {
    var t, u := Replay(chain), ApplyBlock(Replay(chain), b);
    NewCoinsAreNew(b, chain);
    var added, gone := Names(Elements(NewCoins(b))), Elements(Removals(b.tx.value.spends));
    forall k ensures k in Unspent(u) || k in gone <==> k in Unspent(t) || k in added
             ensures !(k in Unspent(u) && k in gone)
    {
      TxRows(b, chain, k);
      if k in gone { RemovalPresent(b, chain, k); }
    }
  }

  // ---- the claimed side ----

  function RewardSum(height: int): int {
    if height < 0 then 0 else RewardSum(height - 1) + PoolReward(height) + BaseFarmerReward(height)
  }

  lemma RewardCoinsSplit(chain: seq<Block>, low: int, high: int)
    requires -1 <= low < high < |chain|
    requires forall i :: 0 <= i < |chain| ==> chain[i].height == i
    ensures
      var p, f := CoinName(PoolCoin(chain[high])), CoinName(FarmerCoin(chain[high]));
      var below := Names(RewardCoins(chain, low, high - 1));
      && p !in below && f !in below
      && Names(RewardCoins(chain, low, high)) == below + {p, f}
  {
    var p, f := CoinName(PoolCoin(chain[high])), CoinName(FarmerCoin(chain[high]));
    var below, all := RewardCoins(chain, low, high - 1), RewardCoins(chain, low, high);
    forall c ensures c in all <==> c in below || c == p.coin || c == f.coin {
    }
    assert all == below + {p.coin, f.coin};
    assert Names(all) == Names(below) + {p, f};
  }

  lemma SumPair(p: Id, f: Id)
    requires p != f
    ensures Sum({p, f}) == Amount(p) + Amount(f)
  {
    SumTake({p, f}, p);
    SumTake({p, f} - {p}, f);
    assert {p, f} - {p} - {f} == {};
  }

  lemma {:induction false} RewardCoinsSum(chain: seq<Block>, low: int, high: int)
    requires -1 <= low <= high < |chain|
    requires forall i :: 0 <= i < |chain| ==> chain[i].height == i
    requires forall i :: low < i < high ==> chain[i].tx.None?
    ensures Sum(Names(RewardCoins(chain, low, high)))
         == RewardSum(high) - RewardSum(low) + (if low < high then Fees(chain[high]) else 0)
    decreases high
  {
    if low == high {
      assert Names(RewardCoins(chain, low, high)) == {};
    } else {
      RewardCoinsSum(chain, low, high - 1);
      RewardCoinsSplit(chain, low, high);
      var p, f := CoinName(PoolCoin(chain[high])), CoinName(FarmerCoin(chain[high]));
      SumUnion(Names(RewardCoins(chain, low, high - 1)), {p, f});
      SumPair(p, f);
      assert low < high - 1 ==> Fees(chain[high - 1]) == 0;
    }
  }

  lemma ClaimsDistinct(b: Block)
    requires b.tx.Some? && Distinct(NewCoins(b))
    ensures Distinct(b.tx.value.claims)
  {
    var claims, n := b.tx.value.claims, |Additions(b.tx.value.spends)|;
    forall i, j | 0 <= i < j < |claims| ensures claims[i] != claims[j] {
      assert NewCoins(b)[n + i] == claims[i] && NewCoins(b)[n + j] == claims[j];
    }
  }

  lemma {:induction false} NoTxBetween(chain: seq<Block>)
    requires 0 <= LastTx(chain)
    ensures LastClaimed(chain) < LastTx(chain)
    ensures forall i :: LastClaimed(chain) < i < LastTx(chain) ==> chain[i].tx.None?
  {
    var front := chain[..LastTx(chain)];
    forall i | LastClaimed(chain) < i < LastTx(chain) ensures chain[i].tx.None? {
      assert front[i] == chain[i];
    }
  }

  lemma {:induction false} ClaimsTotal(claims: seq<Coin>, chain: seq<Block>)
    requires ValidChain(chain) && chain != []
    requires ClaimsOk(claims, ExpectedRewards(chain)) && Distinct(claims)
    ensures 0 <= LastTx(chain)
    ensures TotalCoins(claims)
         == RewardSum(LastTx(chain)) - RewardSum(LastClaimed(chain)) + Fees(chain[LastTx(chain)])
  {
    LastTxExists(chain);
    ClaimWindow(chain);
    NoTxBetween(chain);
    HeightsAreIndices(chain);
    SumCoins(claims);
    RewardCoinsSum(chain, LastClaimed(chain), LastTx(chain));
  }

  /** Unspent value, plus the fees still held by the last transaction block, is the reward of every
      claimed height: nothing else creates or destroys coins. */
  lemma {:induction false} Conservation(chain: seq<Block>)
    requires ValidChain(chain) && chain != []
    ensures 0 <= LastTx(chain)
    ensures Sum(Unspent(Replay(chain))) + Fees(chain[LastTx(chain)]) == RewardSum(LastClaimed(chain))
  {
    var front, b := chain[..|chain| - 1], chain[|chain| - 1];
    LastTxExists(chain);
    ExtendsValid(b, front);
    ClaimedStep(b, front);
    assert front + [b] == chain;
    if front == [] {
      UnspentStep(b, front);
      assert ExpectedRewards([]) == {} && b.tx.value.claims == [];
      assert Unspent(map[]) == {};
    } else {
      Conservation(front);
      if b.tx.Some? {
        UnspentStep(b, front);
        ClaimsDistinct(b);
        ClaimsTotal(b.tx.value.claims, front);
      } else {
        assert LastTx(chain) == LastTx(front);
      }
    }
  }

  /** Because fees were bounded when they were collected, the farmer coin that later pays them out
      is a 64-bit amount. */
  lemma {:induction false} FarmerCoinFits(chain: seq<Block>, i: nat)
    requires ValidChain(chain) && i < |chain|
    ensures 0 <= FarmerCoin(chain[i]).amount <= MAX_COIN_AMOUNT
  {
    BlockValid(chain, i);
  }

  /** For every height, reward coins of that height are in the table exactly if it is claimed, one
      for the pool and one for the farmer; after a transaction block everything below and
      including the transaction block before it is claimed. */
  lemma {:induction false} ClaimedOnce(chain: seq<Block>, h: nat, k: Id)
    requires ValidChain(chain) && k.CoinName?
    requires k.coin.parent == PoolParent(h) || k.coin.parent == FarmerParent(h)
    ensures k in Replay(chain) <==>
      && h <= LastClaimed(chain)
      && k.coin == if k.coin.parent.PoolParent? then PoolCoin(chain[h]) else FarmerCoin(chain[h])
    ensures chain != [] && chain[|chain| - 1].tx.Some? ==> LastClaimed(chain) == LastTx(chain[..|chain| - 1])
  {
    Invariants(chain);
    if k in Replay(chain) {
      assert RewardRowOk(k, chain, LastClaimed(chain));
    } else if h <= LastClaimed(chain) {
      assert Claimed(Replay(chain), chain[h]);
    }
  }
}
