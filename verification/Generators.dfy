/** Running a block's generator. What it yields depends on the program and its arguments alone, and the arguments are
    looked up through the height index of the moment. This module says when that gives what the block's own ancestors
    say, for a block that is received and for a stored block whose generator is run again. */
module Generators {
  import opened Ledger
  import opened LedgerChain
  import opened BlockTree
  import opened BodyValidation
  import opened Blockchain
  import opened AncestorLookup

  /** The spends that a program yields with its arguments. */
  type Run = (nat, seq<GeneratorArg>) -> seq<Spend>

  function OwnFound(chain: seq<Block>, refs: seq<nat>): (r: seq<Option<Block>>)
    ensures |r| == |refs|
    ensures forall i :: 0 <= i < |refs| ==> r[i] == if refs[i] < |chain| then Some(chain[refs[i]]) else None
  {
    seq(|refs|, i requires 0 <= i < |refs| => if refs[i] < |chain| then Some(chain[refs[i]]) else None)
  }

  /** The spends of a block on top of `chain`: none if a reference leads to no generator of the chain. */
  function OwnSpends(run: Run, b: Block, chain: seq<Block>): Option<seq<Spend>> {
    if b.generator.None? then Some([])
    else
      var args := Args(OwnFound(chain, b.refs));
      if args.None? then None else Some(run(b.generator.value, args.value))
  }

  /** Every stored block has the spends that its own ancestors say. */
  ghost predicate Sound(m: Tree, run: Run)
    requires WellFormed(m)
  {
    forall k :: SoundAt(m, run, k)
  }

  ghost predicate SoundAt(m: Tree, run: Run, k: Hash)
    requires WellFormed(m)
  {
    k in m && m[k].tx.Some? ==> OwnSpends(run, m[k], Ancestors(m, m[k])) == Some(m[k].tx.value.spends)
  }

  // ---- when the look-up is right ----

  /** The entries for the references are right, wherever the chains of the peak and of the parent part. */
  ghost predicate RefsKept(m: Tree, heights: map<nat, Hash>, peak: Block, prev: Block, refs: seq<nat>)
    requires WellFormed(m) && Attached(m, peak) && Attached(m, prev)
  {
    forall fork :: IsFork(Chain(m, peak), Chain(m, prev), fork) ==>
      forall i :: 0 <= i < |refs| ==> EntryKept(heights, Chain(m, peak), Chain(m, prev), fork, refs[i])
  }

  /** The look-up for a child of `prev` is right: the height of `prev` is indexed, and if it is under its own name, so
      are the references. */
  ghost predicate LookupRight(m: Tree, heights: map<nat, Hash>, peak: Option<Block>, prev: Block, refs: seq<nat>)
    requires WellFormed(m) && Attached(m, prev)
  {
    && peak.Some? && Attached(m, peak.value) && prev.height in heights
    && (OnIndex(heights, prev) ==> RefsKept(m, heights, peak.value, prev, refs))
  }

  /** Nothing has to be looked up for the block, or it is looked up right. */
  ghost predicate RunsRight(c: Blockchain, b: Block)
    requires c.Valid() && Attached(c.records, b)
    reads c, c.coins, c.blocks
  {
    b.generator.None? || b.refs == [] || b.height == 0 ||
    LookupRight(c.records, c.heightToHash, c.peak, c.records[b.prevHash], b.refs)
  }

  /** Each reference up to the parent leads to the own ancestor exactly if its entry is right. */
  lemma LooksExact(c: Blockchain, prev: Block, main: seq<Block>, chain: seq<Block>, fork: int, refs: seq<nat>)
    requires Branches(c, prev, main, chain, fork) && Below(refs, prev.height) && OnIndex(c.heightToHash, prev)
    ensures AllLooked(c.records, c.heightToHash, prev, refs) == OwnFound(chain, refs)
       <==> forall i :: 0 <= i < |refs| ==> EntryKept(c.heightToHash, main, chain, fork, refs[i])
  {
    BranchFacts(c, prev, main, chain, fork);
    var found, own := AllLooked(c.records, c.heightToHash, prev, refs), OwnFound(chain, refs);
    forall i | 0 <= i < |refs|
      ensures found[i] == own[i] <==> EntryKept(c.heightToHash, main, chain, fork, refs[i])
    {
      EntryExact(c.records, c.heightToHash, main, chain, fork, refs[i]);
    }
  }

  /** The look-up from an indexed parent gives the own ancestors exactly if it is right as said above. */
  lemma {:induction false} FoundExact(c: Blockchain, prev: Block, refs: seq<nat>)
    requires c.Valid() && c.peak.Some? && Has(c.records, prev) && Below(refs, prev.height)
    requires prev.height in c.heightToHash
    ensures AllLooked(c.records, c.heightToHash, prev, refs) == OwnFound(Chain(c.records, prev), refs)
       <==> LookupRight(c.records, c.heightToHash, c.peak, prev, refs)
  {
    var main, chain := Chain(c.records, c.peak.value), Chain(c.records, prev);
    var fork := ForkExists(c.records, c.peak.value, prev);
    if OnIndex(c.heightToHash, prev) {
      LooksExact(c, prev, main, chain, fork, refs);
      forall other | IsFork(main, chain, other) ensures other == fork { ForkUnique(main, chain, other, fork); }
    }
  }

  /** In a graded tree, as in the first epoch, it always is. */
  lemma GradedRuns(c: Blockchain, b: Block)
    requires c.Valid() && Attached(c.records, b) && Graded(c.records)
    ensures RunsRight(c, b)
  {
    if b.height > 0 {
      var prev := c.records[b.prevHash];
      NothingAbovePeak(c, prev);
      var main, chain := Chain(c.records, c.peak.value), Chain(c.records, prev);
      forall fork, i | IsFork(main, chain, fork) && 0 <= i < |b.refs| && OnIndex(c.heightToHash, prev)
        ensures EntryKept(c.heightToHash, main, chain, fork, b.refs[i])
      {
        BranchFacts(c, prev, main, chain, fork);
        OnPeakChain(c.records, c.heightToHash, main, chain, fork);
      }
    }
  }

  // ---- running it ----

  lemma PeakStored(c: Blockchain)
    requires c.Valid()
    ensures if c.peak.None? then c.records == map[]
            else Has(c.records, c.peak.value) && Indexed(c.heightToHash, Chain(c.records, c.peak.value))
  {
  }

  /** What is fetched for a block with a generator; to be unfolded only where it is needed. */
  ghost predicate Fetched(m: Tree, heights: map<nat, Hash>, b: Block, g: BlockGenerator)
    requires WellFormed(m)
  {
    forall use :: FetchedFor(m, heights, b, g, use)
  }

  ghost predicate FetchedFor(m: Tree, heights: map<nat, Hash>, b: Block, g: BlockGenerator, use: bool)
    requires WellFormed(m)
  {
    && b.generator.Some? && (b.refs == [] ==> g == BlockGenerator(b.generator.value, []))
    && (b.refs != [] && b.prevHash in m ==>
          var prev := m[b.prevHash];
          var args := Args(AllLooked(m, heights, prev, b.refs));
          g == if prev.height !in heights || args.None? then Failed else BlockGenerator(b.generator.value, args.value))
  }

  method Fetch(m: Tree, heights: map<nat, Hash>, peak: Option<Block>, b: Block) returns (g: BlockGenerator)
    requires WellFormed(m) && b.generator.Some?
    requires if peak.None? then m == map[] else Has(m, peak.value) && Indexed(heights, Chain(m, peak.value))
    ensures Fetched(m, heights, b, g)
  {
    g := GetBlockGenerator(m, heights, peak, b, map[]);
  }

  lemma RunMeans(c: Blockchain, run: Run, b: Block, g: BlockGenerator)
    requires c.Valid() && Attached(c.records, b) && Fetched(c.records, c.heightToHash, b, g)
    ensures RunsRight(c, b) && Below(b.refs, b.height - 1) ==>
      OwnSpends(run, b, Ancestors(c.records, b)) == if g.BlockGenerator? then Some(run(g.program, g.args)) else None
  {
    assert FetchedFor(c.records, c.heightToHash, b, g, true);
    if b.refs == [] {
      assert OwnFound(Ancestors(c.records, b), b.refs) == [];
    } else if RunsRight(c, b) && Below(b.refs, b.height - 1) {
      assert b.refs[0] <= b.height - 1;
      FoundExact(c, c.records[b.prevHash], b.refs);
    }
  }

  /** Looks the arguments up and runs the program. */
  method RunGenerator(c: Blockchain, run: Run, b: Block) returns (spends: Option<seq<Spend>>)
    requires c.Valid() && Attached(c.records, b)
    ensures RunsRight(c, b) && Below(b.refs, b.height - 1) ==> spends == OwnSpends(run, b, Ancestors(c.records, b))
  {
    if b.generator.None? { return Some([]); }
    var peak := c.GetPeak();
    PeakStored(c);
    var g := Fetch(c.records, c.heightToHash, peak, b);
    RunMeans(c, run, b, g);
    spends := if g.BlockGenerator? then Some(run(g.program, g.args)) else None;
  }

  /** The block with the spends that the node found. */
  function WithSpends(b: Block, spends: seq<Spend>): Block {
    if b.tx.None? then b else b.(tx := Some(b.tx.value.(spends := spends)))
  }

  /** The block as its own ancestors say it, if they say anything. */
  function Meant(run: Run, b: Block, chain: seq<Block>): Option<Block> {
    var spends := OwnSpends(run, b, chain);
    if b.tx.None? then Some(b) else if spends.None? then None else Some(WithSpends(b, spends.value))
  }

  lemma SoundNext(m: Tree, run: Run, b: Block)
    requires WellFormed(m) && Sound(m, run) && b.hash !in m && Attached(m, b)
    requires b.tx.Some? ==> OwnSpends(run, b, Ancestors(m, b)) == Some(b.tx.value.spends)
    ensures WellFormed(m[b.hash := b]) && Sound(m[b.hash := b], run)
  {
    BlockTree.TreeWith(m, b);
    var n := m[b.hash := b];
    forall k ensures SoundAt(n, run, k) {
      if k in m {
        assert SoundAt(m, run, k);
        assert Ancestors(n, m[k]) + [m[k]] == Ancestors(m, m[k]) + [m[k]];
      } else if k == b.hash {
        assert Ancestors(n, b) + [b] == Ancestors(m, b) + [b];
      }
    }
  }

  /** References at or above the block's own height are refused in any case. */
  lemma RefusedAnyway(run: Run, b: Block, chain: seq<Block>)
    requires |chain| == b.height && !Below(b.refs, b.height - 1)
    ensures b.generator.Some? ==> OwnSpends(run, b, chain).None?
    ensures forall spends :: !RefsOk(WithSpends(b, spends))
  {
    var i :| 0 <= i < |b.refs| && b.refs[i] > b.height - 1;
    assert OwnFound(chain, b.refs)[i].None?;
    forall spends ensures !RefsOk(WithSpends(b, spends)) {
      assert WithSpends(b, spends).refs[i] >= b.height;
    }
  }

  ghost predicate Accepts(m: Tree, difficulty: nat, found: Option<Block>)
    requires WellFormed(m)
  {
    found.Some? && Acceptable(m, found.value, difficulty)
  }

  lemma AcceptsMeant(m: Tree, run: Run, b: Block, difficulty: nat, spends: Option<seq<Spend>>)
    requires WellFormed(m) && Attached(m, b) && b.tx.Some?
    requires Below(b.refs, b.height - 1) ==> spends == OwnSpends(run, b, Ancestors(m, b))
    ensures var meant := Meant(run, b, Ancestors(m, b));
      var found := if spends.None? then None else Some(WithSpends(b, spends.value));
      && (Accepts(m, difficulty, found) <==> Accepts(m, difficulty, meant))
      && (Accepts(m, difficulty, found) ==> found == meant)
  {
    if !Below(b.refs, b.height - 1) {
      RefusedAnyway(run, b, Ancestors(m, b));
      assert forall x :: WithSpends(b, x).tx.Some?;
    }
  }

  /** A block arrives: its generator is run with what the index yields, and then it is received with those spends. If
      the look-up is right, the outcome is that for the block as its own ancestors say it, and all stored blocks are
      still as theirs say. */
  method ReceiveRun(c: Blockchain, run: Run, b: Block, difficulty: nat) returns (added: bool)
    requires c.Valid() && 1 <= difficulty && Sound(c.records, run)
    modifies c, c.coins, c.blocks
    ensures c.Valid()
    ensures !Attached(old(c.records), b) ==> !added && c.records == old(c.records)
    ensures Attached(old(c.records), b) && old(RunsRight(c, b)) ==>
      var meant := Meant(run, b, Ancestors(old(c.records), b));
      && Sound(c.records, run) && (added <==> Accepts(old(c.records), difficulty, meant))
      && c.records == if added then old(c.records)[b.hash := meant.value] else old(c.records)
  {
    if b.height > 0 && (b.prevHash !in c.records || c.records[b.prevHash].height + 1 != b.height) { return false; }
    ghost var m, right := c.records, RunsRight(c, b);
    var full := b;
    if b.tx.Some? {
      var spends := RunGenerator(c, run, b);
      if right { AcceptsMeant(m, run, b, difficulty, spends); }
      if spends.None? { return false; }
      full := WithSpends(b, spends.value);
    }
    added := ReceiveFull(c, full, difficulty);
    if right && added { MeantIsSound(m, run, b, full); }
  }

  method ReceiveFull(c: Blockchain, b: Block, difficulty: nat) returns (added: bool)
    requires c.Valid() && 1 <= difficulty
    modifies c, c.coins, c.blocks
    ensures c.Valid() && (added <==> Acceptable(old(c.records), b, difficulty))
    ensures c.records == if added then old(c.records)[b.hash := b] else old(c.records)
  {
    var result, err, forkHeight, changes := c.ReceiveBlock(b, difficulty, None);
    added := result.NewPeak? || result.AddedAsOrphan?;
  }

  lemma MeantIsSound(m: Tree, run: Run, b: Block, full: Block)
    requires WellFormed(m) && Sound(m, run) && Attached(m, b) && b.hash !in m
    requires Meant(run, b, Ancestors(m, b)) == Some(full)
    ensures WellFormed(m[b.hash := full]) && Sound(m[b.hash := full], run)
  {
    assert full.hash == b.hash && full.prevHash == b.prevHash && full.height == b.height;
    assert Ancestors(m, full) == Ancestors(m, b);
    SoundNext(m, run, full);
  }

  lemma RefsOfStored(m: Tree, b: Block)
    requires ValidTree(m) && Has(m, b) && b.tx.Some?
    ensures Below(b.refs, b.height - 1)
  {
    assert ValidAt(m, b.hash);
  }

  /** The generator of a stored block is run again, when its coins are needed for a fork or a new peak: it yields the
      spends that were found when the block arrived, if the look-up is right now. */
  method RunAgain(c: Blockchain, run: Run, b: Block) returns (spends: Option<seq<Spend>>)
    requires c.Valid() && Sound(c.records, run) && Has(c.records, b) && b.tx.Some?
    ensures RunsRight(c, b) ==> spends == Some(b.tx.value.spends)
  {
    assert SoundAt(c.records, run, b.hash);
    RefsOfStored(c.records, b);
    spends := RunGenerator(c, run, b);
  }
}
