/** The coin table as a value, and what one block or one rollback does to it. */
module CoinTable {
  import opened Ledger

  type Table = map<Id, CoinRecord>

  /** A coin as it enters the table. */
  function Fresh(c: Coin, height: nat, coinbase: bool, timestamp: nat): CoinRecord {
    CoinRecord(c, height, 0, false, coinbase, timestamp)
  }

  function MarkSpent(r: CoinRecord, height: nat): CoinRecord {
    r.(spentIndex := height, spent := true)
  }

  function MarkUnspent(r: CoinRecord): CoinRecord {
    r.(spentIndex := 0, spent := false)
  }

  function Names(coins: set<Coin>): (r: set<Id>)
    ensures forall k :: k in r <==> k.CoinName? && k.coin in coins
  {
    set c | c in coins :: CoinName(c)
  }

  /** Insert the new coins, then mark the removed ones that are present. */
  function ApplyTx(t: Table, height: nat, timestamp: nat, additions: set<Coin>, rewards: set<Coin>,
                   removals: set<Id>): (r: Table)
    ensures r.Keys == t.Keys + Names(additions) + Names(rewards)
  {
    map k | k in t.Keys + Names(additions) + Names(rewards) ::
      var row :=
        if k in Names(rewards) then Fresh(k.coin, height, true, timestamp)
        else if k in Names(additions) then Fresh(k.coin, height, false, timestamp)
        else t[k];
      if k in removals then MarkSpent(row, height) else row
  }

  function ApplyBlock(t: Table, b: Block): Table {
    match b.tx
    case None => t
    case Some(tx) =>
      ApplyTx(t, b.height, tx.timestamp, Elements(Additions(tx.spends)), Elements(tx.claims),
              Elements(Removals(tx.spends)))
  }

  /** Delete what was confirmed above `height`; un-spend what was spent above it. */
  function Rollback(t: Table, height: int): Table {
    map k | k in t && t[k].confirmed <= height ::
      if t[k].spentIndex > height then MarkUnspent(t[k]) else t[k]
  }

  lemma RollbackAbove(t: Table, height: int)
    requires forall k :: k in t ==> t[k].confirmed <= height && t[k].spentIndex <= height
    ensures Rollback(t, height) == t
  {
    assert Rollback(t, height).Keys == t.Keys;
  }

  /** Row `k` of `u` is that of `t`, or was added or spent above `height`. */
  ghost predicate RowAbove(t: Table, u: Table, height: int, k: Id) {
    if k in t then
      k in u &&
      (u[k] == t[k] || (t[k] == MarkUnspent(t[k]) && exists h: nat :: h > height && u[k] == MarkSpent(t[k], h)))
    else k in u ==> u[k].confirmed > height
  }

  lemma RollbackForgets(t: Table, u: Table, height: int)
    requires forall k :: RowAbove(t, u, height, k)
    ensures Rollback(u, height) == Rollback(t, height)
  {
    var x, y := Rollback(u, height), Rollback(t, height);
    forall k ensures k in x <==> k in y { assert RowAbove(t, u, height, k); }
    assert x.Keys == y.Keys;
    forall k | k in y ensures x[k] == y[k] { assert RowAbove(t, u, height, k); }
  }
}
