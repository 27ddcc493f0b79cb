/** The least-recently-used cache in front of the coin table. */
module Lru {
  import opened Ledger

  function Without(s: seq<Id>, k: Id): (r: seq<Id>)
    ensures forall x :: x in r <==> x in s && x != k
    ensures |r| <= |s|
    ensures k in s ==> |r| < |s|
    ensures k !in s ==> r == s
  {
    if s == [] then [] else if s[0] == k then Without(s[1..], k) else [s[0]] + Without(s[1..], k)
  }

  lemma {:induction false} WithoutDistinct(s: seq<Id>, k: Id)
    requires Distinct(s)
    ensures Distinct(Without(s, k))
    ensures k in s ==> |Without(s, k)| == |s| - 1
  {
    if s != [] {
      WithoutDistinct(s[1..], k);
      assert s[0] !in s[1..];
    }
  }

  function MovedToEnd(s: seq<Id>, k: Id): seq<Id> {
    Without(s, k) + [k]
  }

  lemma MoveToEnd(s: seq<Id>, k: Id)
    requires Distinct(s)
    ensures Distinct(MovedToEnd(s, k))
    ensures Elements(MovedToEnd(s, k)) == Elements(s) + {k}
    ensures |MovedToEnd(s, k)| == if k in s then |s| else |s| + 1
  {
    WithoutDistinct(s, k);
  }

  lemma DropOldest(s: seq<Id>)
    requires Distinct(s) && s != []
    ensures Distinct(s[1..]) && Elements(s[1..]) == Elements(s) - {s[0]}
  {
    assert s[0] !in s[1..];
    assert s == [s[0]] + s[1..];
  }

  /** Keys from the least to the most recently used, and their values. */
  datatype Cache = Cache(order: seq<Id>, entries: map<Id, CoinRecord>) {
    ghost predicate Ok(capacity: nat) {
      Distinct(order) && Elements(order) == entries.Keys && |order| <= capacity
    }

    function Touch(k: Id): (r: Cache)
      requires k in entries
      ensures r.entries == entries
    {
      this.(order := MovedToEnd(order, k))
    }

    function Put(k: Id, v: CoinRecord, capacity: nat): (r: Cache)
    {
      var order' := MovedToEnd(order, k);
      var entries' := entries[k := v];
      if |order'| > capacity then Cache(order'[1..], entries' - {order'[0]}) else Cache(order', entries')
    }

    function Remove(k: Id): (r: Cache)
      requires k in entries
    {
      Cache(Without(order, k), entries - {k})
    }

    lemma TouchOk(k: Id, capacity: nat)
      requires Ok(capacity) && k in entries
      ensures Touch(k).Ok(capacity)
    {
      MoveToEnd(order, k);
      assert k in order;
    }

    lemma RemoveOk(k: Id, capacity: nat)
      requires Ok(capacity) && k in entries
      ensures Remove(k).Ok(capacity)
    {
      WithoutDistinct(order, k);
    }

    /** A put stores at most one new key, loses at most the oldest one, and loses none when the key
        was already there. */
    lemma PutOk(k: Id, v: CoinRecord, capacity: nat)
      requires Ok(capacity)
      ensures
        var r := Put(k, v, capacity);
        && r.Ok(capacity)
        && r.entries.Keys <= entries.Keys + {k}
        && (forall x :: x in r.entries ==> r.entries[x] == if x == k then v else entries[x])
        && (k in entries ==> r.entries == entries[k := v])
        && (0 < capacity ==> k in r.entries)
    {
      MoveToEnd(order, k);
      assert k in entries <==> k in order;
      if |MovedToEnd(order, k)| > capacity { DropOldest(MovedToEnd(order, k)); }
    }
  }
}

/** The coin store: the table, and a cache that must never change an answer. */
module CoinStore {
  import opened Ledger
  import opened CoinTable
  import opened Lru

  /** Every cached record is the row of `view`. */
  ghost predicate Shows(c: Cache, view: Table) {
    forall k :: k in c.entries ==> k in view && c.entries[k] == view[k]
  }

  lemma ShowsUpdate(before: map<Id, CoinRecord>, after: map<Id, CoinRecord>, view: Table, k: Id, v: CoinRecord)
    requires forall x :: x in before ==> x in view && before[x] == view[x]
    requires after.Keys <= before.Keys + {k}
    requires forall x :: x in after ==> after[x] == if x == k then v else before[x]
    ensures forall x :: x in after ==> x in view[k := v] && after[x] == view[k := v][x]
  {
  }

  lemma ShowsPut(c: Cache, capacity: nat, view: Table, k: Id, v: CoinRecord)
    requires c.Ok(capacity) && Shows(c, view)
    ensures c.Put(k, v, capacity).Ok(capacity) && Shows(c.Put(k, v, capacity), view[k := v])
    ensures k in c.entries ==> c.Put(k, v, capacity).entries.Keys == c.entries.Keys
  {
    c.PutOk(k, v, capacity);
    ShowsUpdate(c.entries, c.Put(k, v, capacity).entries, view, k, v);
  }

  ghost predicate Keyed(t: Table) {
    forall k :: k in t ==> k.CoinName? && t[k].coin == k.coin
  }

  /** The rows a list of records becomes. */
  function Rows(records: seq<CoinRecord>): (r: Table)
    ensures Keyed(r)
  {
    if records == [] then map[]
    else
      var front, last := records[..|records| - 1], records[|records| - 1];
      Rows(front)[CoinName(last.coin) := last]
  }

  lemma RowsStep(t: Table, records: seq<CoinRecord>, i: nat)
    requires i < |records|
    ensures t + Rows(records[..i + 1]) == (t + Rows(records[..i]))[CoinName(records[i].coin) := records[i]]
  {
    assert records[..i + 1][..i] == records[..i];
  }

  /** The records of new coins. */
  function FreshRecords(coins: seq<Coin>, height: nat, coinbase: bool, timestamp: nat): seq<CoinRecord> {
    seq(|coins|, i requires 0 <= i < |coins| => Fresh(coins[i], height, coinbase, timestamp))
  }

  function FreshTable(coins: set<Coin>, height: nat, coinbase: bool, timestamp: nat): Table {
    map k | k in Names(coins) :: Fresh(k.coin, height, coinbase, timestamp)
  }

  lemma {:induction false} FreshRows(coins: seq<Coin>, height: nat, coinbase: bool, timestamp: nat)
    ensures Rows(FreshRecords(coins, height, coinbase, timestamp))
         == FreshTable(Elements(coins), height, coinbase, timestamp)
  {
    var records := FreshRecords(coins, height, coinbase, timestamp);
    if coins != [] {
      var n := |coins| - 1;
      FreshRows(coins[..n], height, coinbase, timestamp);
      assert records[..n] == FreshRecords(coins[..n], height, coinbase, timestamp);
      assert coins == coins[..n] + [coins[n]];
      assert Elements(coins) == Elements(coins[..n]) + {coins[n]};
    }
  }

  lemma UpdateRight(a: Table, b: Table, k: Id, v: CoinRecord)
    ensures (a + b)[k := v] == a + b[k := v]
  {
  }

  lemma {:induction false} RowsAppend(a: seq<CoinRecord>, b: seq<CoinRecord>)
    ensures Rows(a + b) == Rows(a) + Rows(b)
  {
    if b == [] {
      assert a + b == a;
    } else {
      var front, last := b[..|b| - 1], b[|b| - 1];
      RowsAppend(a, front);
      assert (a + b)[..|a + b| - 1] == a + front && (a + b)[|a + b| - 1] == last;
      assert Rows(a + b) == Rows(a + front)[CoinName(last.coin) := last];
      UpdateRight(Rows(a), Rows(front), CoinName(last.coin), last);
    }
  }

  lemma AddedRows(additions: seq<Coin>, rewards: seq<Coin>, height: nat, timestamp: nat)
    ensures Rows(FreshRecords(additions, height, false, timestamp) + FreshRecords(rewards, height, true, timestamp))
         == FreshTable(Elements(additions), height, false, timestamp)
          + FreshTable(Elements(rewards), height, true, timestamp)
  {
    RowsAppend(FreshRecords(additions, height, false, timestamp), FreshRecords(rewards, height, true, timestamp));
    FreshRows(additions, height, false, timestamp);
    FreshRows(rewards, height, true, timestamp);
  }

  lemma SpendInserted(t: Table, height: nat, timestamp: nat, additions: set<Coin>, rewards: set<Coin>,
                      removals: seq<Id>)
    ensures
      var rows := FreshTable(additions, height, false, timestamp) + FreshTable(rewards, height, true, timestamp);
      Spent(t + rows, removals, height) == ApplyTx(t, height, timestamp, additions, rewards, Elements(removals))
  {
    var rows := FreshTable(additions, height, false, timestamp) + FreshTable(rewards, height, true, timestamp);
    var x := Spent(t + rows, removals, height);
    var y := ApplyTx(t, height, timestamp, additions, rewards, Elements(removals));
    assert x.Keys == y.Keys;
    forall k | k in x ensures x[k] == y[k] {
    }
  }

  /** Inserting the records of a block and marking its removals is what the block does to the table. */
  lemma InsertThenSpend(t: Table, height: nat, timestamp: nat, additions: seq<Coin>, rewards: seq<Coin>,
                        removals: seq<Id>)
    ensures
      var records := FreshRecords(additions, height, false, timestamp) + FreshRecords(rewards, height, true, timestamp);
      && Rows(records).Keys == Names(Elements(additions)) + Names(Elements(rewards))
      && Spent(t + Rows(records), removals, height)
         == ApplyTx(t, height, timestamp, Elements(additions), Elements(rewards), Elements(removals))
  {
    AddedRows(additions, rewards, height, timestamp);
    SpendInserted(t, height, timestamp, Elements(additions), Elements(rewards), removals);
  }

  function Spent(t: Table, names: seq<Id>, index: nat): (r: Table)
    ensures r.Keys == t.Keys
  {
    map k | k in t :: if k in names then MarkSpent(t[k], index) else t[k]
  }

  lemma SpentStep(t: Table, names: seq<Id>, index: nat, i: nat)
    requires i < |names|
    ensures
      var before, after := Spent(t, names[..i], index), Spent(t, names[..i + 1], index);
      after == if names[i] in t then before[names[i] := MarkSpent(t[names[i]], index)] else before
  {
    assert names[..i + 1] == names[..i] + [names[i]];
  }

  /** The table with the listed rows un-spent if they were spent above `height`. */
  function Unspent(t: Table, names: seq<Id>, height: int): (r: Table)
    ensures r.Keys == t.Keys
  {
    map k | k in t :: if k in names && t[k].spentIndex > height then MarkUnspent(t[k]) else t[k]
  }

  lemma UnspentStep(t: Table, names: seq<Id>, height: int, i: nat)
    requires i < |names|
    ensures
      var before, after := Unspent(t, names[..i], height), Unspent(t, names[..i + 1], height);
      after == if names[i] in t && t[names[i]].spentIndex > height then before[names[i] := MarkUnspent(t[names[i]])]
               else before
  {
    assert names[..i + 1] == names[..i] + [names[i]];
  }

  /** Of the listed rows, those confirmed above `height`. */
  function Late(t: Table, names: seq<Id>, height: int): seq<Id> {
    if names == [] then []
    else
      var n := |names| - 1;
      Late(t, names[..n], height) + if names[n] in t && t[names[n]].confirmed > height then [names[n]] else []
  }

  lemma {:induction false} LateRows(t: Table, names: seq<Id>, height: int)
    requires Distinct(names)
    ensures Distinct(Late(t, names, height))
    ensures forall k :: k in Late(t, names, height) <==> k in names && k in t && t[k].confirmed > height
  {
    if names != [] {
      var n := |names| - 1;
      LateRows(t, names[..n], height);
      assert names == names[..n] + [names[n]];
      assert names[n] !in names[..n];
    }
  }

  lemma {:induction false} LateStep(t: Table, names: seq<Id>, height: int, i: nat)
    requires i < |names|
    ensures Late(t, names[..i + 1], height)
         == Late(t, names[..i], height) + if names[i] in t && t[names[i]].confirmed > height then [names[i]] else []
  {
    assert names[..i + 1][..i] == names[..i];
  }

  /** What is left of an un-spent view once the late rows are gone is the rolled-back table. */
  lemma {:induction false} ShowsRollback(c: Cache, t: Table, names: seq<Id>, height: int)
    requires Shows(c, Unspent(t, names, height)) && Distinct(names)
    requires c.entries.Keys == Elements(names) - Elements(Late(t, names, height))
    ensures Shows(c, Rollback(t, height))
  {
    LateRows(t, names, height);
  }

  /** Keys left when the first `i` of the queue are dropped. */
  ghost predicate Dropped(c: Cache, names: set<Id>, queue: seq<Id>, i: nat)
    requires i <= |queue|
  {
    c.entries.Keys == names - Elements(queue[..i])
  }

  lemma DropNext(c: Cache, capacity: nat, view: Table, names: set<Id>, queue: seq<Id>, i: nat)
    requires c.Ok(capacity) && Shows(c, view) && Distinct(queue) && Elements(queue) <= names
    requires i < |queue| && Dropped(c, names, queue, i)
    ensures queue[i] in c.entries
    ensures c.Remove(queue[i]).Ok(capacity) && Dropped(c.Remove(queue[i]), names, queue, i + 1)
    ensures Shows(c.Remove(queue[i]), view)
  {
    assert queue[..i + 1] == queue[..i] + [queue[i]];
    assert queue[i] !in queue[..i];
    assert queue[i] in Elements(queue);
    c.RemoveOk(queue[i], capacity);
  }

  // the statements of a rollback, one table query each
  function Deleted(t: Table, height: int): Table {
    map k | k in t && t[k].confirmed > height :: t[k].(confirmed := 0, timestamp := 0)
  }

  function Kept(t: Table, height: int): Table {
    map k | k in t && t[k].confirmed <= height :: t[k]
  }

  function Reset(t: Table, height: int): Table {
    map k | k in t :: if t[k].spentIndex > height then MarkUnspent(t[k]) else t[k]
  }

  lemma RollbackStatements(t: Table, height: int)
    requires Keyed(t)
    ensures Reset(Kept(t, height), height) == Rollback(t, height)
    ensures Keyed(Rollback(t, height))
  {
  }

  class CoinStore {
    var table: Table
    var cache: Cache
    const capacity: nat

    ghost predicate Valid()
      reads this
    {
      Keyed(table) && cache.Ok(capacity) && Shows(cache, table)
    }

    constructor (capacity: nat)
      ensures Valid() && table == map[] && this.capacity == capacity
    {
      this.capacity := capacity;
      table := map[];
      cache := Cache([], map[]);
    }

    method GetCoinRecord(name: Id) returns (r: Option<CoinRecord>)
      requires Valid()
      modifies this`cache
      ensures Valid()
      ensures r == if name in table then Some(table[name]) else None
    {
      if name in cache.entries {
        cache.TouchOk(name, capacity);
        r := Some(cache.entries[name]);
        cache := cache.Touch(name);
      } else if name in table {
        r := Some(table[name]);
        ShowsPut(cache, capacity, table, name, table[name]);
        cache := cache.Put(CoinName(table[name].coin), table[name], capacity);
      } else {
        r := None;
      }
    }

    method AddCoinRecords(records: seq<CoinRecord>)
      requires Valid()
      requires forall k :: k in Rows(records) ==> k !in table
      modifies this
      ensures Valid() && table == old(table) + Rows(records)
    {
      var values: Table := map[];
      assert table + Rows(records[..0]) == table;
      for i := 0 to |records|
        invariant table == old(table)
        invariant values == Rows(records[..i])
        invariant cache.Ok(capacity) && Shows(cache, table + values)
      {
        var record := records[i];
        RowsStep(table, records, i);
        ShowsPut(cache, capacity, table + values, CoinName(record.coin), record);
        cache := cache.Put(CoinName(record.coin), record, capacity);
        values := values[CoinName(record.coin) := record];
        assert records[..i + 1][..i] == records[..i];
      }
      assert records[..|records|] == records;
      table := table + values;
    }

    method SetSpent(names: seq<Id>, index: nat)
      requires Valid()
      modifies this
      ensures Valid() && table == Spent(old(table), names, index)
    {
      assert Spent(table, names[..0], index) == table;
      for i := 0 to |names|
        invariant table == old(table)
        invariant cache.Ok(capacity) && Shows(cache, Spent(table, names[..i], index))
      {
        SpentStep(table, names, index, i);
        if names[i] in cache.entries {
          var r := cache.entries[names[i]];
          cache.TouchOk(names[i], capacity);
          cache := cache.Touch(names[i]);
          ShowsPut(cache, capacity, Spent(table, names[..i], index), names[i], MarkSpent(r, index));
          cache := cache.Put(CoinName(r.coin), MarkSpent(r, index), capacity);
        }
      }
      assert names[..|names|] == names;
      table := Spent(table, names, index);
    }

    /** Applies a transaction block: new coins are inserted, spent ones marked. Reward coins come
        as a set and are recorded in some order. */
    method NewBlock(height: nat, timestamp: nat, rewards: set<Coin>, additions: seq<Coin>, removals: seq<Id>)
      returns (added: seq<CoinRecord>, ghost listed: seq<Coin>)
      requires Valid()
      requires if height == 0 then rewards == {} else |rewards| >= 2
      requires forall k :: k in Names(Elements(additions)) + Names(rewards) ==> k !in table
      modifies this
      ensures Valid()
      ensures table == ApplyTx(old(table), height, timestamp, Elements(additions), rewards, Elements(removals))
      ensures Elements(listed) == rewards && |listed| == |rewards|
      ensures added == FreshRecords(additions, height, false, timestamp) + FreshRecords(listed, height, true, timestamp)
    {
      added, listed := NewRecords(height, timestamp, rewards, additions);
      InsertThenSpend(table, height, timestamp, additions, listed, removals);
      AddCoinRecords(added);
      SetSpent(removals, height);
    }

    static method NewRecords(height: nat, timestamp: nat, rewards: set<Coin>, additions: seq<Coin>)
      returns (added: seq<CoinRecord>, ghost listed: seq<Coin>)
      ensures Elements(listed) == rewards && |listed| == |rewards|
      ensures added == FreshRecords(additions, height, false, timestamp) + FreshRecords(listed, height, true, timestamp)
    {
      added := [];
      for i := 0 to |additions|
        invariant added == FreshRecords(additions[..i], height, false, timestamp)
      {
        added := added + [Fresh(additions[i], height, false, timestamp)];
      }
      assert additions[..|additions|] == additions;
      listed := [];
      var left := rewards;
      while left != {}
        invariant left <= rewards && Elements(listed) == rewards - left && |listed| == |rewards| - |left|
        invariant added == FreshRecords(additions, height, false, timestamp) +
          FreshRecords(listed, height, true, timestamp)
        decreases left
      {
        var coin :| coin in left;
        added := added + [Fresh(coin, height, true, timestamp)];
        listed := listed + [coin];
        left := left - {coin};
      }
    }

    /** Removes what was confirmed above `height` and un-spends what was spent above it, in the
        cache and in the table. The rows reported back are the deleted ones only: when the second
        query runs, no row above `height` is left. */
    method RollbackToBlock(height: int) returns (changes: Table)
      requires Valid()
      modifies this
      ensures Valid() && table == Rollback(old(table), height)
      ensures changes == Deleted(old(table), height)
    {
      ghost var names := cache.order;
      RollbackStatements(table, height);
      var deleteQueue := UnspendCached(height);
      DropCached(height, deleteQueue, names);

      changes := Deleted(table, height);
      table := Kept(table, height);
      var late := set k | k in table && table[k].confirmed > height;
      assert late == {};
      table := Reset(table, height);
    }

    /** Un-spends cached records in place and lists those to drop. */
    method UnspendCached(height: int) returns (deleteQueue: seq<Id>)
      requires Valid()
      modifies this`cache
      ensures cache.Ok(capacity) && cache.entries.Keys == old(cache.entries.Keys)
      ensures Shows(cache, Unspent(table, old(cache.order), height))
      ensures deleteQueue == Late(table, old(cache.order), height)
    {
      var names, records := cache.order, cache.entries;
      deleteQueue := [];
      assert Unspent(table, names[..0], height) == table;
      for i := 0 to |names|
        invariant cache.Ok(capacity) && cache.entries.Keys == records.Keys
        invariant Shows(cache, Unspent(table, names[..i], height))
        invariant deleteQueue == Late(table, names[..i], height)
      {
        assert names[i] in Elements(names);
        var record := records[names[i]];
        UnspendOne(names, i, record, height);
        LateStep(table, names, height, i);
        if record.confirmed > height {
          deleteQueue := deleteQueue + [names[i]];
        }
      }
      assert names[..|names|] == names;
    }

    method UnspendOne(names: seq<Id>, i: nat, record: CoinRecord, height: int)
      requires i < |names| && names[i] in cache.entries && names[i] in table && record == table[names[i]]
      requires names[i] == CoinName(record.coin)
      requires cache.Ok(capacity) && Shows(cache, Unspent(table, names[..i], height))
      modifies this`cache
      ensures cache.Ok(capacity) && cache.entries.Keys == old(cache.entries.Keys)
      ensures Shows(cache, Unspent(table, names[..i + 1], height))
    {
      UnspentStep(table, names, height, i);
      if record.spentIndex > height {
        ShowsPut(cache, capacity, Unspent(table, names[..i], height), names[i], MarkUnspent(record));
        cache := cache.Put(CoinName(record.coin), MarkUnspent(record), capacity);
      }
    }

    method DropCached(height: int, deleteQueue: seq<Id>, ghost names: seq<Id>)
      requires cache.Ok(capacity) && cache.entries.Keys == Elements(names) && Distinct(names)
      requires Shows(cache, Unspent(table, names, height))
      requires deleteQueue == Late(table, names, height)
      modifies this`cache
      ensures cache.Ok(capacity) && Shows(cache, Rollback(table, height))
    {
      LateRows(table, names, height);
      DropAll(deleteQueue, Elements(names), Unspent(table, names, height));
      assert deleteQueue[..|deleteQueue|] == deleteQueue;
      ShowsRollback(cache, table, names, height);
    }

    method DropAll(deleteQueue: seq<Id>, ghost all: set<Id>, ghost view: Table)
      requires cache.Ok(capacity) && cache.entries.Keys == all && Shows(cache, view)
      requires Distinct(deleteQueue) && Elements(deleteQueue) <= all
      modifies this`cache
      ensures cache.Ok(capacity) && Dropped(cache, all, deleteQueue, |deleteQueue|) && Shows(cache, view)
    {
      assert Dropped(cache, all, deleteQueue, 0);
      for i := 0 to |deleteQueue|
        invariant cache.Ok(capacity) && Dropped(cache, all, deleteQueue, i) && Shows(cache, view)
      {
        DropNext(cache, capacity, view, all, deleteQueue, i);
        cache := cache.Remove(deleteQueue[i]);
      }
    }
  }
}
