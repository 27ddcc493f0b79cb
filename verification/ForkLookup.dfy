/** Looking a coin up for a block on any branch, when the store holds the coins of the peak. */
module ForkLookup {
  import opened Ledger
  import opened CoinTable
  import opened LedgerChain
  import opened LedgerInvariants

  datatype Added = Added(coin: Coin, height: nat, timestamp: nat)

  function AddedBy(b: Block): (r: map<Id, Added>)
    ensures r.Keys == Names(Elements(NewCoins(b)))
    ensures forall k :: k in r ==> r[k].coin == k.coin && r[k].height == b.height
  {
    map k | k in Names(Elements(NewCoins(b))) :: Added(k.coin, b.height, b.tx.value.timestamp)
  }

  function RemovedBy(b: Block): set<Id> {
    if b.tx.None? then {} else Elements(Removals(b.tx.value.spends))
  }

  /** Coins created and spent by the blocks of `chain` above the fork height. */
  function AddedSince(chain: seq<Block>, fork: int): map<Id, Added> {
    if |chain| - 1 <= fork || chain == [] then map[]
    else AddedSince(chain[..|chain| - 1], fork) + AddedBy(chain[|chain| - 1])
  }

  function RemovedSince(chain: seq<Block>, fork: int): set<Id> {
    if |chain| - 1 <= fork || chain == [] then {}
    else RemovedSince(chain[..|chain| - 1], fork) + RemovedBy(chain[|chain| - 1])
  }

  lemma {:induction false} AddedCoins(chain: seq<Block>, fork: int, k: Id)
    requires k in AddedSince(chain, fork)
    ensures k.CoinName? && AddedSince(chain, fork)[k].coin == k.coin
  {
    var front, b := chain[..|chain| - 1], chain[|chain| - 1];
    if k !in AddedBy(b) { AddedCoins(front, fork, k); }
  }

  /** The table at the tip, from the table at the fork and the two collections. */
  ghost predicate Since(t: Table, atFork: Table, added: map<Id, Added>, removed: set<Id>, k: Id) {
    && (k in t <==> k in atFork || k in added)
    && !(k in atFork && k in added)
    && (k in removed ==> k in t)
    && (k in t ==> (t[k].spent <==> (k in atFork && atFork[k].spent) || k in removed))
    && (k in atFork && k in t ==>
          t[k].confirmed == atFork[k].confirmed && t[k].timestamp == atFork[k].timestamp)
    && (k in added && k in t ==>
          t[k].confirmed == added[k].height && t[k].timestamp == added[k].timestamp)
  }

  lemma {:induction false} SinceStep(b: Block, chain: seq<Block>, atFork: Table, added: map<Id, Added>,
                                     removed: set<Id>, k: Id)
    requires Extends(b, chain)
    requires Since(Replay(chain), atFork, added, removed, k)
    ensures Since(ApplyBlock(Replay(chain), b), atFork, added + AddedBy(b), removed + RemovedBy(b), k)
    ensures b.tx.Some? ==> (k in AddedBy(b) ==> k !in added) && (k in RemovedBy(b) ==> k !in removed)
  {
    if b.tx.Some? {
      TxRows(b, chain, k);
      NewCoinsAreNew(b, chain);
      if k in RemovedBy(b) { RemovalPresent(b, chain, k); }
    }
  }

  lemma {:induction false} SinceFork(chain: seq<Block>, fork: int, k: Id)
    requires ValidChain(chain) && -1 <= fork < |chain|
    ensures Since(Replay(chain), Replay(chain[..fork + 1]), AddedSince(chain, fork), RemovedSince(chain, fork), k)
  {
    if fork == |chain| - 1 {
      assert chain[..fork + 1] == chain;
    } else {
      var front, b := chain[..|chain| - 1], chain[|chain| - 1];
      SinceFork(front, fork, k);
      ExtendsValid(b, front);
      assert front[..fork + 1] == chain[..fork + 1];
      SinceStep(b, front, Replay(front[..fork + 1]), AddedSince(front, fork), RemovedSince(front, fork), k);
    }
  }

  /** Blocks of one chain never create or spend the same coin, so collecting them one block at a
      time never meets a name twice. */
  lemma {:induction false} CollectsOnce(chain: seq<Block>, fork: int, i: nat)
    requires ValidChain(chain) && -1 <= fork < i < |chain|
    ensures AddedBy(chain[i]).Keys !! AddedSince(chain[..i], fork).Keys
    ensures RemovedBy(chain[i]) !! RemovedSince(chain[..i], fork)
  {
    BlockValid(chain, i);
    ExtendsValid(chain[i], chain[..i]);
    forall k ensures !(k in AddedBy(chain[i]) && k in AddedSince(chain[..i], fork))
             ensures !(k in RemovedBy(chain[i]) && k in RemovedSince(chain[..i], fork))
    {
      SinceFork(chain[..i], fork, k);
      SinceStep(chain[i], chain[..i], Replay(chain[..i][..fork + 1]), AddedSince(chain[..i], fork),
                RemovedSince(chain[..i], fork), k);
    }
  }

  /** The three-source lookup: the peak's row when it was confirmed at or below the fork, else what
      the branch created, in both cases unless the branch has spent it. */
  predicate FoundUnspent(store: Table, fork: int, added: map<Id, Added>, removed: set<Id>, r: Id) {
    && r !in removed
    && if r in store && store[r].confirmed <= fork
       then !(store[r].spent && store[r].spentIndex <= fork)
       else r in added
  }

  function FoundConfirmed(store: Table, fork: int, added: map<Id, Added>, r: Id): (nat, nat)
    requires (r in store && store[r].confirmed <= fork) || r in added
  {
    if r in store && store[r].confirmed <= fork then (store[r].confirmed, store[r].timestamp)
    else (added[r].height, added[r].timestamp)
  }

  /** The lookup accepts a coin exactly when it is unspent in the replay of the branch, and reports
      the branch's confirmation height and time, wherever the branch left the peak's chain. */
  lemma {:induction false} LookupIsReplay(peak: seq<Block>, chain: seq<Block>, fork: int, r: Id)
    requires ValidChain(peak) && ValidChain(chain)
    requires -1 <= fork < |peak| && fork < |chain| && peak[..fork + 1] == chain[..fork + 1]
    ensures
      var store, t := Replay(peak), Replay(chain);
      var added, removed := AddedSince(chain, fork), RemovedSince(chain, fork);
      && (FoundUnspent(store, fork, added, removed, r) <==> r in t && !t[r].spent)
      && (r in t && !t[r].spent ==>
            FoundConfirmed(store, fork, added, r) == (t[r].confirmed, t[r].timestamp))
  {
    RollbackIsReplay(peak, fork);
    SinceFork(chain, fork, r);
    Invariants(peak);
    var store, atFork := Replay(peak), Replay(chain[..fork + 1]);
    assert r in atFork <==> r in store && store[r].confirmed <= fork;
    if r in store { assert RowOk(store, r, |peak|); }
  }
}
