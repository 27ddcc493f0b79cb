/** Whole runs: what a node holds after receiving any sequence of blocks that are right. */
module Runs {
  import opened Ledger
  import opened LedgerChain
  import opened BlockTree
  import opened Blockchain

  /** A stored chain is the chain of its last block. */
  lemma {:induction false} StoredIsChain(m: Tree, chain: seq<Block>)
    requires WellFormed(m) && Stored(m, chain) && chain != []
    ensures chain[|chain| - 1].hash in m && m[chain[|chain| - 1].hash] == chain[|chain| - 1] &&
      Chain(m, chain[|chain| - 1]) == chain
  {
    var n := |chain| - 1;
    assert StoredAt(m, chain, n);
    if n > 0 {
      var front := chain[..n];
      forall i | 0 <= i < n ensures StoredAt(m, front, i) { assert StoredAt(m, chain, i); }
      StoredIsChain(m, front);
    }
  }

  /** The block is right on top of `below`; to be unfolded only where it is needed. */
  ghost predicate Right(b: Block, below: seq<Block>, difficulty: nat) {
    forall use :: RightFor(b, below, difficulty, use)
  }

  ghost predicate RightFor(b: Block, below: seq<Block>, difficulty: nat, use: bool) {
    && |below| == b.height && HeaderOk(b, below) && BodyOk(b, below)
    && (below != [] ==> b.weight == below[|below| - 1].weight + difficulty)
  }

  lemma AcceptableOn(m: Tree, b: Block, difficulty: nat, below: seq<Block>)
    requires WellFormed(m) && b.hash !in m && Stored(m, below) && Right(b, below, difficulty)
    ensures Acceptable(m, b, difficulty) && Ancestors(m, b) == below
  {
    assert RightFor(b, below, difficulty, true);
    if b.height > 0 {
      StoredIsChain(m, below);
      assert StoredAt(m, below, b.height - 1);
    }
  }

  /** The state after a script, as far as the look-ups see it. */
  ghost predicate State(c: Blockchain, script: seq<Step>)
    reads c, c.coins, c.blocks
  {
    && c.records == TreeAfter(script) && c.heightToHash == IndexAfter(script) && c.peak == PeakAfter(script)
    && forall use :: Usable(c, use)
  }

  /** The invariant of the node, to be unfolded only where it is needed. */
  ghost predicate Usable(c: Blockchain, use: bool)
    reads c, c.coins, c.blocks
  {
    c.Valid()
  }

  /** A block to receive, with the blocks it is put on. */
  datatype Step = Step(b: Block, difficulty: nat, below: seq<Block>)

  ghost function TreeAfter(script: seq<Step>): Tree {
    if script == [] then map[] else var s := script[|script| - 1]; TreeAfter(script[..|script| - 1])[s.b.hash := s.b]
  }

  ghost function PeakAfter(script: seq<Step>): Option<Block> {
    if script == [] then None else Better(PeakAfter(script[..|script| - 1]), script[|script| - 1].b)
  }

  ghost function IndexAfter(script: seq<Step>): map<nat, Hash> {
    if script == [] then map[]
    else
      var front, s := script[..|script| - 1], script[|script| - 1];
      if Heavier(PeakAfter(front), s.b) then Overlaid(IndexAfter(front), s.below + [s.b]) else IndexAfter(front)
  }

  /** Each block is new and right on top of stored blocks. */
  ghost predicate Playable(script: seq<Step>) {
    forall i :: PlayableAt(script, i)
  }

  ghost predicate PlayableAt(script: seq<Step>, i: nat) {
    i < |script| ==>
      var m, s := TreeAfter(script[..i]), script[i];
      && 1 <= s.difficulty && s.b.hash !in m && Stored(m, s.below) && Right(s.b, s.below, s.difficulty)
  }

  lemma AfterNext(script: seq<Step>, i: nat)
    requires i < |script|
    ensures var a, z, s := script[..i], script[..i + 1], script[i];
      && TreeAfter(z) == TreeAfter(a)[s.b.hash := s.b] && PeakAfter(z) == Better(PeakAfter(a), s.b)
      && IndexAfter(z) ==
           if Heavier(PeakAfter(a), s.b) then Overlaid(IndexAfter(a), s.below + [s.b]) else IndexAfter(a)
  {
    assert script[..i + 1][..i] == script[..i];
  }

  method ReceiveRight(c: Blockchain, b: Block, difficulty: nat, ghost below: seq<Block>)
    requires c.Valid() && 1 <= difficulty && b.hash !in c.records
    requires Stored(c.records, below) && Right(b, below, difficulty)
    modifies c, c.coins, c.blocks
    ensures c.Valid() && c.records == old(c.records)[b.hash := b] && c.peak == Better(old(c.peak), b)
    ensures c.heightToHash ==
      if Heavier(old(c.peak), b) then Overlaid(old(c.heightToHash), below + [b]) else old(c.heightToHash)
  {
    AcceptableOn(c.records, b, difficulty, below);
    var result, err, forkHeight, changes := c.ReceiveBlock(b, difficulty, None);
  }

  method Receive(c: Blockchain, script: seq<Step>, i: nat)
    requires Playable(script) && i < |script| && State(c, script[..i])
    modifies c, c.coins, c.blocks
    ensures State(c, script[..i + 1])
  {
    assert PlayableAt(script, i) && Usable(c, true);
    AfterNext(script, i);
    ReceiveRight(c, script[i].b, script[i].difficulty, script[i].below);
  }

  /** A node that receives the blocks of a script, one after the other. */
  method Play(script: seq<Step>) returns (c: Blockchain)
    requires Playable(script)
    ensures fresh(c) && fresh(c.coins) && fresh(c.blocks) && State(c, script)
  {
    c := new Blockchain(10);
    for i := 0 to |script|
      invariant fresh(c) && fresh(c.coins) && fresh(c.blocks) && State(c, script[..i])
    {
      Receive(c, script, i);
    }
    assert script[..|script|] == script;
  }
}
