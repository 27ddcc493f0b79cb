/** The coin records a node reports when the peak moves. */
module CoinChanges {
  import opened Ledger
  import opened CoinTable
  import opened LedgerChain
  import opened LedgerInvariants
  import opened ForkLookup
  import CS = CoinStore

  /** `latest` is `base` with the rows of `t` for all `names`, name by name. */
  ghost predicate Noted(latest: Table, base: Table, names: set<Id>, t: Table) {
    forall k :: NotedAt(latest, base, names, t, k)
  }

  ghost predicate NotedAt(latest: Table, base: Table, names: set<Id>, t: Table, k: Id) {
    && (k in latest <==> k in base || (k in names && k in t))
    && (k in latest ==> latest[k] == if k in names && k in t then t[k] else base[k])
  }

  /** Names a block creates or spends. */
  function Touched(b: Block): set<Id> {
    AddedBy(b).Keys + RemovedBy(b)
  }

  function TouchedSince(chain: seq<Block>, fork: int): set<Id> {
    AddedSince(chain, fork).Keys + RemovedSince(chain, fork)
  }

  /** What is reported when the peak moves from `main` to `chain`: what the rollback deleted, and then the rows of
      the new table for everything the new blocks create or spend. */
  ghost predicate PeakChanges(changes: Table, main: seq<Block>, chain: seq<Block>, fork: int) {
    Noted(changes, CS.Deleted(Replay(main), fork), TouchedSince(chain, fork), Replay(chain))
  }

  // ---- one block ----

  method NoteAdded(latest: Table, records: seq<CoinRecord>) returns (noted: Table)
    ensures noted == latest + CS.Rows(records)
  {
    noted := latest;
    assert latest + CS.Rows(records[..0]) == latest;
    for i := 0 to |records|
      invariant noted == latest + CS.Rows(records[..i])
    {
      CS.RowsStep(latest, records, i);
      noted := noted[CoinName(records[i].coin) := records[i]];
    }
    assert records[..|records|] == records;
  }

  /** Looks every removal up again; each is found. */
  method NoteRemoved(coins: CS.CoinStore, latest: Table, removals: seq<Id>) returns (noted: Table)
    requires coins.Valid() && forall i :: 0 <= i < |removals| ==> removals[i] in coins.table
    modifies coins`cache
    ensures coins.Valid() && Noted(noted, latest, Elements(removals), coins.table)
  {
    noted := latest;
    for i := 0 to |removals|
      invariant coins.Valid() && Noted(noted, latest, Elements(removals[..i]), coins.table)
    {
      var record := coins.GetCoinRecord(removals[i]);
      NoteNext(noted, latest, removals, i, coins.table);
      noted := noted[removals[i] := record.value];
    }
    assert removals[..|removals|] == removals;
  }

  lemma NoteNext(noted: Table, latest: Table, removals: seq<Id>, i: nat, t: Table)
    requires i < |removals| && removals[i] in t && Noted(noted, latest, Elements(removals[..i]), t)
    ensures Noted(noted[removals[i] := t[removals[i]]], latest, Elements(removals[..i + 1]), t)
  {
    var next, names := noted[removals[i] := t[removals[i]]], Elements(removals[..i + 1]);
    assert removals[..i + 1] == removals[..i] + [removals[i]];
    forall k ensures NotedAt(next, latest, names, t, k) {
      assert NotedAt(noted, latest, Elements(removals[..i]), t, k);
    }
  }

  /** The rows a transaction block inserts. */
  function NewRows(b: Block): Table
    requires b.tx.Some?
  {
    var tx := b.tx.value;
    CS.FreshTable(Elements(Additions(tx.spends)), b.height, false, tx.timestamp)
    + CS.FreshTable(Elements(tx.claims), b.height, true, tx.timestamp)
  }

  /** New coins first, then the removals as they are after the block: the block's rows of the table. */
  lemma {:induction false} NotedBlock(b: Block, front: seq<Block>, latest: Table, rows: Table, noted: Table)
    requires Extends(b, front) && b.tx.Some?
    requires rows == NewRows(b)
    requires Noted(noted, latest + rows, Elements(Removals(b.tx.value.spends)), ApplyBlock(Replay(front), b))
    ensures Noted(noted, latest, Touched(b), ApplyBlock(Replay(front), b))
  {
    var t := ApplyBlock(Replay(front), b);
    forall k ensures NotedAt(noted, latest, Touched(b), t, k) {
      assert NotedAt(noted, latest + rows, Elements(Removals(b.tx.value.spends)), t, k);
      NewRow(b, front, rows, k);
    }
  }

  lemma {:induction false} NewRow(b: Block, front: seq<Block>, rows: Table, k: Id)
    requires Extends(b, front) && b.tx.Some?
    requires rows == NewRows(b)
    ensures var t := ApplyBlock(Replay(front), b);
      && (k in rows <==> k in AddedBy(b)) && (k in rows ==> k in t)
      && (k in rows && k !in RemovedBy(b) ==> rows[k] == t[k])
  {
    TxRows(b, front, k);
  }

  // ---- the blocks above the fork ----

  lemma NotedStart(latest: Table, chain: seq<Block>, fork: int)
    requires -1 <= fork < |chain|
    ensures Noted(latest, latest, TouchedSince(chain[..fork + 1], fork), Replay(chain[..fork + 1]))
  {
    var names, t := TouchedSince(chain[..fork + 1], fork), Replay(chain[..fork + 1]);
    assert names == {};
    assert forall k :: NotedAt(latest, latest, names, t, k);
  }

  /** The row under `k` is the same in both tables, or in neither. */
  predicate SameRow(t: Table, u: Table, k: Id) {
    (k in u <==> k in t) && (k in t ==> u[k] == t[k])
  }

  lemma {:induction false} UntouchedRow(b: Block, front: seq<Block>, k: Id)
    requires Extends(b, front) && k !in Touched(b)
    ensures SameRow(Replay(front), ApplyBlock(Replay(front), b), k)
  {
    if b.tx.Some? { TxRows(b, front, k); }
  }

  /** Rows noted earlier stay right unless the next block touches them, and then they are noted again. */
  lemma {:induction false} NotedNext(b: Block, front: seq<Block>, fork: int, base: Table, latest: Table, next: Table)
    requires Extends(b, front) && -1 <= fork < |front|
    requires Noted(latest, base, TouchedSince(front, fork), Replay(front))
    requires Noted(next, latest, Touched(b), ApplyBlock(Replay(front), b))
    ensures Noted(next, base, TouchedSince(front, fork) + Touched(b), ApplyBlock(Replay(front), b))
  {
    var u := ApplyBlock(Replay(front), b);
    forall k ensures NotedAt(next, base, TouchedSince(front, fork) + Touched(b), u, k) {
      assert NotedAt(latest, base, TouchedSince(front, fork), Replay(front), k);
      assert NotedAt(next, latest, Touched(b), u, k);
      if k !in Touched(b) { UntouchedRow(b, front, k); }
      if b.tx.Some? { TxRows(b, front, k); }
    }
  }

  // ---- what is reported, and what is not ----

  lemma {:induction false} UntouchedLast(chain: seq<Block>, k: Id)
    requires ValidChain(chain) && chain != [] && k !in Touched(chain[|chain| - 1])
    ensures SameRow(Replay(chain[..|chain| - 1]), Replay(chain), k)
  {
    var front, b := chain[..|chain| - 1], chain[|chain| - 1];
    ExtendsValid(b, front);
    UntouchedRow(b, front, k);
  }

  lemma TouchedLast(chain: seq<Block>, fork: int, k: Id)
    requires -1 <= fork < |chain| - 1 && k !in TouchedSince(chain, fork)
    ensures k !in TouchedSince(chain[..|chain| - 1], fork) && k !in Touched(chain[|chain| - 1])
  {
  }

  lemma SameRowChain(t: Table, u: Table, v: Table, k: Id)
    requires SameRow(t, u, k) && SameRow(u, v, k)
    ensures SameRow(t, v, k)
  {
  }

  lemma {:induction false} UntouchedSince(chain: seq<Block>, fork: int, k: Id)
    requires ValidChain(chain) && -1 <= fork < |chain| && k !in TouchedSince(chain, fork)
    ensures SameRow(Replay(chain[..fork + 1]), Replay(chain), k)
  {
    if fork == |chain| - 1 {
      assert chain[..fork + 1] == chain;
    } else {
      var front := chain[..|chain| - 1];
      assert front[..fork + 1] == chain[..fork + 1];
      TouchedLast(chain, fork, k);
      UntouchedSince(front, fork, k);
      UntouchedLast(chain, k);
      SameRowChain(Replay(chain[..fork + 1]), Replay(front), Replay(chain), k);
    }
  }

  /** Every reported record is right: the new row, or the old one with its confirmation cleared if the coin is gone.
      The rows that change without being reported are exactly those that the rollback un-spends and the new
      branch does not spend again. */
  lemma {:induction false} ChangesExact(main: seq<Block>, chain: seq<Block>, fork: int, changes: Table, k: Id)
    requires ValidChain(main) && ValidChain(chain)
    requires -1 <= fork < |main| && fork < |chain| && main[..fork + 1] == chain[..fork + 1]
    requires PeakChanges(changes, main, chain, fork)
    ensures var before, after := Replay(main), Replay(chain);
      && (k in changes && k in after ==> changes[k] == after[k])
      && (k in changes && k !in after ==>
            k in before && before[k].confirmed > fork && changes[k] == before[k].(confirmed := 0, timestamp := 0))
      && (!SameRow(before, after, k) && k !in changes <==>
            k in before && before[k].confirmed <= fork < before[k].spentIndex && k !in RemovedSince(chain, fork))
  {
    var before, after := Replay(main), Replay(chain);
    assert NotedAt(changes, CS.Deleted(before, fork), TouchedSince(chain, fork), after, k);
    RollbackIsReplay(main, fork);
    SinceFork(chain, fork, k);
    if k !in TouchedSince(chain, fork) { UntouchedSince(chain, fork, k); }
    Invariants(main);
    if k in before { assert RowOk(before, k, |main|); }
  }
}
