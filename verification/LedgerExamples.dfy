/** Runs that show where looking up by height goes wrong, and a coin whose change is not reported. */
module LedgerExamples {
  import opened Ledger
  import opened CoinTable
  import opened LedgerChain
  import opened LedgerInvariants
  import opened ForkLookup
  import opened BlockTree
  import opened BodyValidation
  import opened CoinChanges
  import opened Blockchain
  import opened Runs
  import opened AncestorLookup
  import CS = CoinStore

  /** A first block without spends. */
  function First(): Block {
    var tx := TxBody(GENESIS_CHALLENGE, 0, [], [], 0, true);
    Block(1, GENESIS_CHALLENGE, 0, DIFFICULTY_STARTING, 0, 0, None, None, [], Some(tx))
  }

  /** A transaction block that claims the rewards of the first block, with a generator that spends nothing. */
  function Claiming(hash: Hash, prev: Block, difficulty: nat, program: nat): Block {
    var claims := [PoolCoin(First()), FarmerCoin(First())];
    Block(hash, prev.hash, prev.height + 1, prev.weight + difficulty, 0, 0, None, Some(program), [],
          Some(TxBody(1, 1, claims, [], 0, true)))
  }

  /** A block without transactions. */
  function Plain(hash: Hash, prev: Block): Block {
    Block(hash, prev.hash, prev.height + 1, prev.weight + 1, 0, 0, None, None, [], None)
  }

  lemma RewardFits(height: nat)
    ensures 0 <= PoolReward(height) <= MAX_COIN_AMOUNT && 0 <= BaseFarmerReward(height) <= MAX_COIN_AMOUNT
  {
  }

  lemma NoFees(b: Block, tx: TxBody)
    requires tx.spends == [] && tx.fees == 0
    ensures FeesOk(b, tx) && Additions(tx.spends) == [] && Removals(tx.spends) == []
  {
    RewardFits(b.height);
    assert TotalAmount([]) == 0 && TotalCoins([]) == 0;
  }

  /** Without spends, only the claims matter. */
  lemma NothingSpent(b: Block, chain: seq<Block>)
    requires b.tx.Some? && b.tx.value.spends == [] && b.tx.value.fees == 0 && b.tx.value.authentic && b.refs == []
    requires ClaimsOk(b.tx.value.claims, ExpectedRewards(chain)) && AmountsOk(b.tx.value.claims)
    requires Distinct(b.tx.value.claims)
    ensures BodyOk(b, chain)
  {
    NoFees(b, b.tx.value);
    assert NewCoins(b) == b.tx.value.claims;
  }

  lemma FirstRight()
    ensures Right(First(), [], 1)
  {
    assert ExpectedRewards([]) == {};
    NothingSpent(First(), []);
  }

  /** The first block, and blocks without transactions on top. */
  ghost predicate OneTx(chain: seq<Block>) {
    && chain != [] && chain[0] == First() && (forall i :: 0 < i < |chain| ==> chain[i].tx.None?)
    && chain[|chain| - 1].height == |chain| - 1
  }

  lemma {:induction false} FirstRewards(chain: seq<Block>)
    requires OneTx(chain)
    ensures LastTx(chain) == 0 && ExpectedRewards(chain) == {PoolCoin(First()), FarmerCoin(First())}
  {
    assert LastTx(chain) == 0;
    assert RewardCoins(chain, -1, 0) == {PoolCoin(First()), FarmerCoin(First())};
  }

  lemma ClaimingRight(chain: seq<Block>, hash: Hash, difficulty: nat, program: nat)
    requires OneTx(chain) && difficulty > 0
    ensures Right(Claiming(hash, chain[|chain| - 1], difficulty, program), chain, difficulty)
  {
    var b := Claiming(hash, chain[|chain| - 1], difficulty, program);
    FirstRewards(chain);
    RewardFits(0);
    assert Elements(b.tx.value.claims) == {PoolCoin(First()), FarmerCoin(First())};
    NothingSpent(b, chain);
  }

  lemma PlainRight(hash: Hash, chain: seq<Block>)
    requires chain != [] && chain[|chain| - 1].height == |chain| - 1
    ensures Right(Plain(hash, chain[|chain| - 1]), chain, 1)
  {
  }

  // ---- a stale index ----

  /** Two blocks and an orphan on top of a chain, and a heavier block beside the first. */
  datatype Four = Four(low: Block, high: Block, orphan: Block, heavy: Block)

  /** All are right. The heavier block has three times the difficulty, as it can have at the end of an epoch; so it
      outweighs the two, and the orphan does not outweigh it. */
  ghost predicate Branching(f: Four, chain: seq<Block>, d: nat) {
    && chain != [] && d >= 1 && Right(f.low, chain, d) && Right(f.high, chain + [f.low], d)
    && Right(f.orphan, chain + [f.low] + [f.high], d) && Right(f.heavy, chain, 3 * d)
  }

  ghost predicate Fresh(f: Four, m: Tree) {
    && f.low.hash !in m && f.high.hash !in m && f.orphan.hash !in m && f.heavy.hash !in m
    && f.low.hash != f.high.hash && f.low.hash != f.orphan.hash && f.low.hash != f.heavy.hash
    && f.high.hash != f.orphan.hash && f.high.hash != f.heavy.hash && f.orphan.hash != f.heavy.hash
  }

  lemma Weights(f: Four, chain: seq<Block>, d: nat)
    requires Branching(f, chain, d)
    ensures var h, w := |chain|, chain[|chain| - 1].weight;
      && f.low.weight == w + d && f.high.weight == w + 2 * d && f.orphan.weight == f.heavy.weight == w + 3 * d
      && f.low.height == f.heavy.height == h && f.high.height == h + 1 && f.orphan.height == h + 2
  {
    assert RightFor(f.low, chain, d, true) && RightFor(f.high, chain + [f.low], d, true);
    assert RightFor(f.orphan, chain + [f.low] + [f.high], d, true) && RightFor(f.heavy, chain, 3 * d, true);
  }

  lemma StoredNext(m: Tree, chain: seq<Block>, b: Block, d: nat)
    requires Stored(m, chain) && b.hash !in m && Right(b, chain, d)
    ensures Stored(m[b.hash := b], chain + [b])
  {
    assert RightFor(b, chain, d, true);
    var e, t := chain + [b], m[b.hash := b];
    forall i | 0 <= i < |e| ensures StoredAt(t, e, i) {
      if i > 0 { assert StoredAt(m, chain, i - 1); }
      if i < |chain| { assert StoredAt(m, chain, i); }
    }
  }

  lemma StillStored(m: Tree, chain: seq<Block>, b: Block)
    requires Stored(m, chain) && b.hash !in m
    ensures Stored(m[b.hash := b], chain)
  {
    var t := m[b.hash := b];
    forall i | 0 <= i < |chain| ensures StoredAt(t, chain, i) { assert StoredAt(m, chain, i); }
  }

  /** What the look-ups see of the node. */
  ghost predicate Holds(c: Blockchain, m: Tree, peak: Block, heights: map<nat, Hash>)
    reads c, c.coins, c.blocks
  {
    c.records == m && c.peak == Some(peak) && c.heightToHash == heights && forall use :: Usable(c, use)
  }

  method Put(c: Blockchain, b: Block, d: nat, ghost below: seq<Block>, ghost m: Tree, ghost peak: Block,
             ghost heights: map<nat, Hash>)
    requires Holds(c, m, peak, heights) && 1 <= d && b.hash !in m && Stored(m, below) && Right(b, below, d)
    modifies c, c.coins, c.blocks
    ensures b.weight > peak.weight ==> Holds(c, m[b.hash := b], b, Overlaid(heights, below + [b]))
    ensures b.weight <= peak.weight ==> Holds(c, m[b.hash := b], peak, heights)
  {
    assert Usable(c, true);
    ReceiveRight(c, b, d, below);
  }

  ghost function TreeWithFour(m: Tree, f: Four): Tree {
    m[f.low.hash := f.low][f.high.hash := f.high][f.heavy.hash := f.heavy][f.orphan.hash := f.orphan]
  }

  ghost function IndexWithFour(heights: map<nat, Hash>, chain: seq<Block>, f: Four): map<nat, Hash> {
    Overlaid(Overlaid(Overlaid(heights, chain + [f.low]), chain + [f.low] + [f.high]), chain + [f.heavy])
  }

  lemma AllStored(m: Tree, chain: seq<Block>, f: Four, d: nat)
    requires Stored(m, chain) && Branching(f, chain, d) && Fresh(f, m)
    ensures var one := m[f.low.hash := f.low]; var two := one[f.high.hash := f.high];
      && Stored(one, chain + [f.low]) && Stored(two, chain) && Stored(two, chain + [f.low] + [f.high])
      && Stored(two[f.heavy.hash := f.heavy], chain + [f.low] + [f.high])
      && Stored(TreeWithFour(m, f), chain + [f.low] + [f.high])
  {
    var one := m[f.low.hash := f.low];
    var two := one[f.high.hash := f.high];
    StoredNext(m, chain, f.low, d);
    StillStored(m, chain, f.low);
    StoredNext(one, chain + [f.low], f.high, d);
    StillStored(one, chain, f.high);
    StillStored(two, chain + [f.low] + [f.high], f.heavy);
    StillStored(two[f.heavy.hash := f.heavy], chain + [f.low] + [f.high], f.orphan);
  }

  method PutFour(c: Blockchain, f: Four, d: nat, ghost chain: seq<Block>, ghost m: Tree, ghost heights: map<nat, Hash>)
    requires Stored(m, chain) && Branching(f, chain, d) && Fresh(f, m) && Holds(c, m, chain[|chain| - 1], heights)
    modifies c, c.coins, c.blocks
    ensures Holds(c, TreeWithFour(m, f), f.heavy, IndexWithFour(heights, chain, f))
  {
    Weights(f, chain, d);
    AllStored(m, chain, f, d);
    ghost var one := m[f.low.hash := f.low];
    ghost var two := one[f.high.hash := f.high];
    ghost var first := Overlaid(heights, chain + [f.low]);
    ghost var second := Overlaid(first, chain + [f.low] + [f.high]);
    Put(c, f.low, d, chain, m, chain[|chain| - 1], heights);
    Put(c, f.high, d, chain + [f.low], one, f.low, first);
    Put(c, f.heavy, 3 * d, chain, two, f.high, second);
    ghost var three, third := two[f.heavy.hash := f.heavy], IndexWithFour(heights, chain, f);
    Put(c, f.orphan, d, chain + [f.low] + [f.high], three, f.heavy, third);
  }

  /** The entry for the height of the second block is left; there is none for the orphan's. */
  lemma StaleEntries(heights: map<nat, Hash>, chain: seq<Block>, f: Four, d: nat)
    requires Branching(f, chain, d)
    ensures var after := IndexWithFour(heights, chain, f);
      && OnIndex(after, f.high) && OnIndex(after, f.heavy) && (f.orphan.height in after ==> f.orphan.height in heights)
  {
    Weights(f, chain, d);
  }

  lemma StaleBlocks(m: Tree, chain: seq<Block>, f: Four, d: nat)
    requires Stored(m, chain) && Branching(f, chain, d) && Fresh(f, m) && WellFormed(TreeWithFour(m, f))
    ensures var after := TreeWithFour(m, f);
      && Has(after, f.high) && Has(after, f.orphan) && Has(after, f.heavy)
      && Chain(after, f.high) == chain + [f.low] + [f.high]
  {
    AllStored(m, chain, f, d);
    StoredIsChain(TreeWithFour(m, f), chain + [f.low] + [f.high]);
  }

  /** The fetched range, and the generators of a child of the second block and of a child of the orphan. */
  method LookUp(f: Four, m: Tree, heights: map<nat, Hash>, peak: Option<Block>)
    returns (fetched: Option<seq<Block>>, wrong: BlockGenerator, none: BlockGenerator)
    requires WellFormed(m) && Has(m, f.high) && Has(m, f.orphan) && Has(m, f.heavy) && f.high.height > f.heavy.height
    requires OnIndex(heights, f.high) && OnIndex(heights, f.heavy) && f.orphan.height !in heights
    requires f.heavy.generator.Some? && peak == Some(f.heavy) && Indexed(heights, Chain(m, f.heavy))
    ensures fetched == Some([f.heavy])
    ensures wrong == BlockGenerator(44, [GeneratorArg(f.heavy.height, f.heavy.generator.value)]) && none == Failed
  {
    var h := f.heavy.height;
    assert AtHeight(m, heights, h) == Some(f.heavy);
    fetched := GetBlocksAtHeight(m, heights, f.high, h, 1);
    assert forall k :: h <= k < h + 1 ==> AtHeight(m, heights, k).Some?;
    assert NamedAt(m, heights, h, fetched.value, h) && fetched.value == [fetched.value[0]];
    var child := Plain(0, f.high).(generator := Some(44), refs := [h]);
    assert AllLooked(m, heights, f.high, child.refs) == [Some(f.heavy)];
    wrong := GetBlockGenerator(m, heights, peak, child, map[]);
    none := GetBlockGenerator(m, heights, peak, Plain(0, f.orphan).(generator := Some(55), refs := [h]), map[]);
  }

  /** In any state with nothing left over above the peak: after two blocks on the peak, a block of three times the
      difficulty beside the first and an orphan on the second, the fast way returns a block that is no ancestor, a
      reference from a child of the second block leads to the wrong generator, and a child of the orphan gets no
      generator at all. */
  method StaleIndex(c: Blockchain, f: Four, d: nat, ghost chain: seq<Block>)
    returns (fetched: Option<seq<Block>>, wrong: BlockGenerator, none: BlockGenerator)
    requires c.Valid() && c.peak.Some? && chain == Chain(c.records, c.peak.value)
    requires Branching(f, chain, d) && Fresh(f, c.records) && f.heavy.generator.Some?
    requires f.orphan.height !in c.heightToHash
    modifies c, c.coins, c.blocks
    ensures c.Valid() && c.peak == Some(f.heavy) && Has(c.records, f.high) && Has(c.records, f.orphan)
    ensures Chain(c.records, f.high) == chain + [f.low] + [f.high] && fetched == Some([f.heavy])
    ensures wrong == BlockGenerator(44, [GeneratorArg(f.low.height, f.heavy.generator.value)]) && none == Failed
  {
    ChainStored(c.records, c.peak.value);
    Weights(f, chain, d);
    ghost var m, heights := c.records, c.heightToHash;
    PutFour(c, f, d, chain, m, heights);
    assert Usable(c, true);
    StaleEntries(heights, chain, f, d);
    StaleBlocks(m, chain, f, d);
    var peak := c.GetPeak();
    fetched, wrong, none := LookUp(f, c.records, c.heightToHash, peak);
  }

  // A run that leads there, of any length before the fork.

  function Base(n: nat): (chain: seq<Block>)
    ensures |chain| == n + 1
  {
    if n == 0 then [First()] else var below := Base(n - 1); below + [Plain(n + 1, below[n - 1])]
  }

  function FourOn(prev: Block): Four {
    var low := Claiming(prev.hash + 1, prev, 1, 11);
    var high := Plain(prev.hash + 2, low);
    Four(low, high, Plain(prev.hash + 3, high), Claiming(prev.hash + 4, prev, 3, 33))
  }

  lemma {:induction false} BaseOk(n: nat)
    ensures OneTx(Base(n)) && Base(n)[n].hash == n + 1 && Base(n)[n].weight == n + 1
  {
    if n > 0 { BaseOk(n - 1); }
  }

  lemma FourRight(chain: seq<Block>)
    requires OneTx(chain)
    ensures Branching(FourOn(chain[|chain| - 1]), chain, 1)
  {
    var prev := chain[|chain| - 1];
    var f := FourOn(prev);
    ClaimingRight(chain, prev.hash + 1, 1, 11);
    ClaimingRight(chain, prev.hash + 4, 3, 33);
    PlainRight(prev.hash + 2, chain + [f.low]);
    PlainRight(prev.hash + 3, chain + [f.low] + [f.high]);
  }

  /** The node has received the first blocks of the base, and nothing else. */
  ghost predicate Received(c: Blockchain, n: nat)
    reads c, c.coins, c.blocks
  {
    && Holds(c, c.records, Base(n)[n], c.heightToHash) && Stored(c.records, Base(n))
    && (forall k :: k in c.records ==> k <= n + 1) && (forall h :: h in c.heightToHash ==> h <= n)
  }

  method PutFirst() returns (c: Blockchain)
    ensures fresh(c) && fresh(c.coins) && fresh(c.blocks) && Received(c, 0)
  {
    c := new Blockchain(10);
    FirstRight();
    ReceiveRight(c, First(), 1, []);
    assert Received(c, 0);
  }

  method PutPlain(c: Blockchain, b: Block, n: nat)
    requires Received(c, n) && b == Base(n + 1)[n + 1]
    modifies c, c.coins, c.blocks
    ensures Received(c, n + 1)
  {
    ghost var m, heights := c.records, c.heightToHash;
    BaseOk(n);
    BaseOk(n + 1);
    PlainRight(n + 2, Base(n));
    StoredNext(m, Base(n), b, 1);
    Put(c, b, 1, Base(n), m, Base(n)[n], heights);
  }

  method PlayBase(n: nat) returns (c: Blockchain)
    ensures fresh(c) && fresh(c.coins) && fresh(c.blocks) && Received(c, n)
  {
    c := PutFirst();
    for i := 0 to n
      invariant fresh(c) && fresh(c.coins) && fresh(c.blocks) && Received(c, i)
    {
      PutPlain(c, Base(i + 1)[i + 1], i);
    }
  }

  lemma {:induction false} BaseReceived(c: Blockchain, n: nat)
    requires Received(c, n)
    ensures c.Valid() && c.peak.Some? && Chain(c.records, c.peak.value) == Base(n)
    ensures (forall k :: k in c.records ==> k <= n + 1) && (forall h :: h in c.heightToHash ==> h <= n)
  {
    assert Usable(c, true);
    StoredIsChain(c.records, Base(n));
  }

  lemma {:induction false} FourFits(n: nat, m: Tree, heights: map<nat, Hash>)
    requires (forall k :: k in m ==> k <= n + 1) && (forall h :: h in heights ==> h <= n)
    ensures var f := FourOn(Base(n)[n]);
      && Branching(f, Base(n), 1) && Fresh(f, m) && f.orphan.height !in heights
      && f.low.height == n + 1 && f.low.generator == Some(11) && f.heavy.generator == Some(33)
  {
    BaseOk(n);
    FourRight(Base(n));
    assert Base(n)[n].height == n;
  }

  /** The run of a new node: `n + 1` blocks of difficulty 1, and the four on top. */
  method StaleRun(n: nat) returns (c: Blockchain, fetched: Option<seq<Block>>, wrong: BlockGenerator,
                                   none: BlockGenerator)
    ensures fresh(c) && c.Valid()
    ensures var f := FourOn(Base(n)[n]);
      && c.peak == Some(f.heavy) && Has(c.records, f.high) && Has(c.records, f.orphan)
      && Chain(c.records, f.high) == Base(n) + [f.low] + [f.high] && fetched == Some([f.heavy])
      && f.low.generator == Some(11) && wrong == BlockGenerator(44, [GeneratorArg(n + 1, 33)]) && none == Failed
  {
    c := PlayBase(n);
    BaseReceived(c, n);
    FourFits(n, c.records, c.heightToHash);
    fetched, wrong, none := StaleIndex(c, FourOn(Base(n)[n]), 1, Base(n));
  }

  // ---- a change that is not reported ----

  lemma {:induction false} Append(chain: seq<Block>, b: Block, difficulty: nat)
    requires ValidChain(chain) && Right(b, chain, difficulty)
    ensures ValidChain(chain + [b])
  {
    assert RightFor(b, chain, difficulty, true);
    assert (chain + [b])[..|chain|] == chain;
  }

  /** The coin `k` is unspent after `chain`; to be unfolded only where it is needed. */
  ghost predicate UnspentIn(chain: seq<Block>, k: Id) {
    forall use :: UnspentFor(chain, k, use)
  }

  ghost predicate UnspentFor(chain: seq<Block>, k: Id, use: bool) {
    ValidChain(chain) && k in Replay(chain) && !Replay(chain)[k].spent
  }

  /** A coin that the last block creates and does not spend. */
  lemma {:induction false} NewRowUnspent(chain: seq<Block>, b: Block, k: Id)
    requires ValidChain(chain) && Right(b, chain, 1) && b.tx.Some? && k.CoinName? && k.coin in NewCoins(b)
    requires k !in Removals(b.tx.value.spends)
    ensures UnspentIn(chain + [b], k)
  {
    assert RightFor(b, chain, 1, true);
    ExtendsValid(b, chain);
    NewCoinsAreNew(b, chain);
    TxRows(b, chain, k);
  }

  /** Spends just `k`, all of it as a fee, and claims what it should. */
  ghost predicate SpendsOnly(b: Block, k: Id, chain: seq<Block>) {
    && k.CoinName? && 0 <= k.coin.amount && k.coin.amount + BaseFarmerReward(b.height) <= MAX_COIN_AMOUNT
    && b.tx.Some? && b.tx.value.authentic && b.refs == [] && b.generator.Some?
    && b.tx.value.spends == [Spend(k, k.coin.puzzleHash, [], [])] && b.tx.value.fees == k.coin.amount
    && ClaimsOk(b.tx.value.claims, ExpectedRewards(chain)) && AmountsOk(b.tx.value.claims)
    && Distinct(b.tx.value.claims) && k.coin !in b.tx.value.claims
  }

  lemma SpendRight(chain: seq<Block>, b: Block, k: Id)
    requires SpendsOnly(b, k, chain) && UnspentIn(chain, k)
    ensures BodyOk(b, chain)
  {
    assert UnspentFor(chain, k, true);
    var tx := b.tx.value;
    OneSpend(tx.spends, k);
    assert NewCoins(b) == tx.claims;
    assert SpendAllowed(b, tx.spends[0], Replay(chain), PrevTxHeight(chain));
  }

  lemma {:induction false} OneSpend(spends: seq<Spend>, k: Id)
    requires k.CoinName? && spends == [Spend(k, k.coin.puzzleHash, [], [])]
    ensures Additions(spends) == [] && Removals(spends) == [k] && ReservesNonNegative(spends)
    ensures TotalAmount(Removals(spends)) == k.coin.amount && TotalReserved(spends) == 0
  {
    assert spends[1..] == [] && Additions(spends) == Outputs(spends[0]) + Additions([]);
    assert Removals(spends) == [k] && [k][1..] == [];
    assert TotalAmount([k]) == Amount(k) + TotalAmount([]);
    assert TotalReserved(spends) == Reserved([]) + TotalReserved([]);
  }

  /** Moving from `main` to the heavier `other` changes the row of `k`, and the report does not say so. */
  ghost predicate Unsaid(main: seq<Block>, other: seq<Block>, k: Id) {
    && ValidChain(main) && ValidChain(other) && 1 < |main| && IsFork(main, other, |main| - 2) && other != []
    && main[|main| - 1].weight < other[|other| - 1].weight
    && PeakChanges(CS.Deleted(Replay(main), |main| - 2), main, other, |main| - 2)
    && k !in CS.Deleted(Replay(main), |main| - 2) && !SameRow(Replay(main), Replay(other), k)
  }

  /** From `n` on there are no transactions. */
  ghost predicate Quiet(chain: seq<Block>, n: nat) {
    n <= |chain| && forall i :: n <= i < |chain| ==> chain[i].tx.None?
  }

  lemma {:induction false} QuietBlocks(chain: seq<Block>, n: nat)
    requires Quiet(chain, n) && 0 < n
    ensures Replay(chain) == Replay(chain[..n]) && TouchedSince(chain, n - 1) == {}
  {
    if n == |chain| {
      assert chain[..n] == chain;
    } else {
      var front, b := chain[..|chain| - 1], chain[|chain| - 1];
      QuietBlocks(front, n);
      assert front[..n] == chain[..n];
      assert Touched(b) == {};
      assert TouchedSince(chain, n - 1) == TouchedSince(front, n - 1) + Touched(b);
    }
  }

  lemma {:induction false} RowChanges(chain: seq<Block>, b: Block, k: Id)
    requires UnspentIn(chain, k) && Right(b, chain, 1) && b.tx.Some? && k in Removals(b.tx.value.spends)
    ensures var main := chain + [b];
      ValidChain(main) && !SameRow(Replay(main), Replay(chain), k) && k !in CS.Deleted(Replay(main), |chain| - 1)
  {
    assert UnspentFor(chain, k, true) && RightFor(b, chain, 1, true);
    ExtendsValid(b, chain);
    TxRows(b, chain, k);
    assert RowOk(Replay(chain), k, |chain|);
  }

  lemma {:induction false} NothingToReport(other: seq<Block>, n: nat, base: Table)
    requires Quiet(other, n) && 0 < n
    ensures Noted(base, base, TouchedSince(other, n - 1), Replay(other))
  {
    QuietBlocks(other, n);
    var names, t := TouchedSince(other, n - 1), Replay(other);
    forall k ensures NotedAt(base, base, names, t, k) {
    }
  }

  lemma ForkAfter(chain: seq<Block>, b: Block, other: seq<Block>)
    requires |chain| < |other| && other[..|chain|] == chain && other[|chain|].hash != b.hash
    ensures IsFork(chain + [b], other, |chain| - 1)
  {
    assert (chain + [b])[..|chain|] == chain;
  }

  /** So it is with a block that spends `k`, and any heavier branch beside it without transactions. */
  lemma {:induction false} Unreported(chain: seq<Block>, b: Block, other: seq<Block>, k: Id)
    requires chain != [] && UnspentIn(chain, k) && Right(b, chain, 1)
    requires b.tx.Some? && k in Removals(b.tx.value.spends)
    requires ValidChain(other) && |chain| < |other| && other[..|chain|] == chain && other[|chain|].hash != b.hash
    requires Quiet(other, |chain|) && b.weight < other[|other| - 1].weight
    ensures Unsaid(chain + [b], other, k)
  {
    RowChanges(chain, b, k);
    ForkAfter(chain, b, other);
    var main := chain + [b];
    Reported(main, other, k, Replay(chain));
  }

  lemma {:induction false} Reported(main: seq<Block>, other: seq<Block>, k: Id, t: Table)
    requires ValidChain(main) && ValidChain(other) && 1 < |main| <= |other| && IsFork(main, other, |main| - 2)
    requires Quiet(other, |main| - 1) && main[|main| - 1].weight < other[|other| - 1].weight
    requires t == Replay(other[..|main| - 1]) && !SameRow(Replay(main), t, k)
    requires k !in CS.Deleted(Replay(main), |main| - 2)
    ensures Unsaid(main, other, k)
  {
    QuietBlocks(other, |main| - 1);
    NothingToReport(other, |main| - 1, CS.Deleted(Replay(main), |main| - 2));
  }

  lemma {:induction false} RewardsOfSecond(chain: seq<Block>)
    requires |chain| == 2 && chain[0].tx.Some? && chain[1].tx.Some?
    ensures LastTx(chain) == 1 && ExpectedRewards(chain) == {PoolCoin(chain[1]), FarmerCoin(chain[1])}
  {
    assert chain[..1] == [chain[0]] && LastTx([chain[0]]) == 0 && PrevLastTx(chain) == 0;
    assert RewardCoins(chain, 0, 1) == {PoolCoin(chain[1]), FarmerCoin(chain[1])};
  }

  /** Spends the pool coin of `g`, and claims the rewards of `b`. */
  function Spending(g: Block, b: Block): Block {
    var claims := [PoolCoin(b), FarmerCoin(b)];
    var tx := TxBody(b.hash, 2, claims, [Spend(CoinName(PoolCoin(g)), g.poolPuzzle, [], [])], PoolReward(0), true);
    Block(3, b.hash, 2, b.weight + 1, 0, 0, None, Some(12), [], Some(tx))
  }

  lemma SpendingFits(chain: seq<Block>)
    requires |chain| == 2 && chain[0].tx.Some? && chain[1].tx.Some? && chain[0].height == 0 && chain[1].height == 1
    requires chain[1].tx.value.fees == 0 && chain[1].tx.value.timestamp < 2
    ensures SpendsOnly(Spending(chain[0], chain[1]), CoinName(PoolCoin(chain[0])), chain)
    ensures HeaderOk(Spending(chain[0], chain[1]), chain)
  {
    var b := chain[1];
    var s := Spending(chain[0], b);
    RewardsOfSecond(chain);
    RewardFits(1);
    assert Elements(s.tx.value.claims) == {PoolCoin(b), FarmerCoin(b)};
  }

  /** Blocks without transactions on top of a chain. */
  lemma PlainNext(chain: seq<Block>, hash: Hash, n: nat) returns (other: seq<Block>)
    requires ValidChain(chain) && chain != [] && Quiet(chain, n)
    ensures ValidChain(other) && |other| == |chain| + 1 && other[..|chain|] == chain && Quiet(other, n)
    ensures other[|chain|].hash == hash && other[|chain|].weight == chain[|chain| - 1].weight + 1
  {
    var b := Plain(hash, chain[|chain| - 1]);
    BlockValid(chain, |chain| - 1);
    PlainRight(hash, chain);
    Append(chain, b, 1);
    other := chain + [b];
  }

  lemma TwoPlain(chain: seq<Block>, hash: Hash) returns (other: seq<Block>)
    requires ValidChain(chain) && chain != []
    ensures ValidChain(other) && |other| == |chain| + 2 && other[..|chain|] == chain && Quiet(other, |chain|)
    ensures other[|chain|].hash == hash && other[|chain| + 1].weight == chain[|chain| - 1].weight + 2
  {
    var one := PlainNext(chain, hash, |chain|);
    other := PlainNext(one, hash + 1, |chain|);
    assert other[..|chain|] == other[..|one|][..|chain|];
  }

  lemma SpendingRight(chain: seq<Block>, s: Block, k: Id)
    requires chain != [] && SpendsOnly(s, k, chain) && HeaderOk(s, chain) && UnspentIn(chain, k)
    requires s.weight == chain[|chain| - 1].weight + 1
    ensures Right(s, chain, 1) && k in Removals(s.tx.value.spends)
  {
    SpendRight(chain, s, k);
    OneSpend(s.tx.value.spends, k);
  }

  /** Two transaction blocks, of which the second leaves the first one's pool coin unspent. */
  ghost predicate Claimed(chain: seq<Block>) {
    && |chain| == 2 && chain[0].tx.Some? && chain[1].tx.Some? && chain[0].height == 0 && chain[1].height == 1
    && chain[1].tx.value.fees == 0 && chain[1].tx.value.timestamp < 2
    && UnspentIn(chain, CoinName(PoolCoin(chain[0])))
  }

  lemma ClaimedOn(g: Block, b: Block)
    requires Right(g, [], 1) && Right(b, [g], 1) && g.tx.Some? && b.tx.Some? && g.height == 0 && b.height == 1
    requires b.tx.value.fees == 0 && b.tx.value.timestamp < 2 && PoolCoin(g) in NewCoins(b) && b.tx.value.spends == []
    ensures Claimed([g] + [b])
  {
    Append([], g, 1);
    assert [] + [g] == [g];
    NewRowUnspent([g], b, CoinName(PoolCoin(g)));
  }

  lemma ClaimedExample()
    ensures Claimed([First()] + [Claiming(2, First(), 1, 11)])
  {
    var g, b := First(), Claiming(2, First(), 1, 11);
    FirstRight();
    ClaimingRight([g], 2, 1, 11);
    assert b.tx.value.claims[0] == PoolCoin(g);
    ClaimedOn(g, b);
  }

  lemma UnreportedOn(chain: seq<Block>)
    requires Claimed(chain)
    ensures exists main, other, k :: Unsaid(main, other, k)
  {
    var s, k := Spending(chain[0], chain[1]), CoinName(PoolCoin(chain[0]));
    SpendingFits(chain);
    SpendingRight(chain, s, k);
    assert UnspentFor(chain, k, true);
    var other := TwoPlain(chain, 4);
    Unreported(chain, s, other, k);
  }

  /** A move to a heavier branch that un-spends the pool coin of the first block without reporting it: of two blocks
      of difficulty 1, beside one. */
  lemma UnreportedChange()
    ensures exists main, other, k :: Unsaid(main, other, k)
  {
    ClaimedExample();
    UnreportedOn([First()] + [Claiming(2, First(), 1, 11)]);
  }
}
