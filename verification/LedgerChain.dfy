/** A chain is the sequence of a block's ancestors from genesis, so indices are heights. This
    module says when a block may extend a chain, and what holds of every chain built so. */
module LedgerChain {
  import opened Ledger
  import opened CoinTable

  /** The coin table obtained by applying the blocks from genesis on. */
  function Replay(chain: seq<Block>): Table {
    if chain == [] then map[]
    else ApplyBlock(Replay(chain[..|chain| - 1]), chain[|chain| - 1])
  }

  /** Height of the last transaction block, or -1. */
  function LastTx(chain: seq<Block>): (p: int)
    ensures -1 <= p < |chain|
    ensures p >= 0 ==> chain[p].tx.Some?
    ensures forall i :: p < i < |chain| ==> chain[i].tx.None?
  {
    if chain == [] then -1
    else if chain[|chain| - 1].tx.Some? then |chain| - 1
    else LastTx(chain[..|chain| - 1])
  }

  /** The transaction block before the last one, or -1. */
  function PrevLastTx(chain: seq<Block>): (p: int)
    ensures -1 <= p < |chain|
    ensures LastTx(chain) >= 0 ==> p < LastTx(chain)
  {
    if LastTx(chain) <= 0 then -1 else LastTx(chain[..LastTx(chain)])
  }

  /** Reward coins of the heights above `low` and up to `high`. */
  function RewardCoins(chain: seq<Block>, low: int, high: int): set<Coin>
    requires -1 <= low && high < |chain|
  {
    (set i | low < i <= high :: PoolCoin(chain[i])) + (set i | low < i <= high :: FarmerCoin(chain[i]))
  }

  /** The rewards a transaction block on top of `chain` has to claim: those of the last transaction
      block, and those of the blocks between it and the transaction block before it. */
  function ExpectedRewards(chain: seq<Block>): set<Coin> {
    RewardCoins(chain, PrevLastTx(chain), LastTx(chain))
  }

  // ---- when a block may follow its ancestors ----

  function NewCoins(b: Block): seq<Coin> {
    match b.tx
    case None => []
    case Some(tx) => Additions(tx.spends) + tx.claims
  }

  /** A removal is allowed for a coin the block itself creates, or one unspent in `t`. */
  predicate Spendable(t: Table, b: Block, r: Id) {
    || (r.CoinName? && r.coin in NewCoins(b))
    || (r in t && !t[r].spent)
  }

  /** Confirmation height and time of a spent coin, as the lock conditions see them. */
  function Confirmed(t: Table, b: Block, r: Id): (nat, nat)
    requires Spendable(t, b, r) && b.tx.Some?
  {
    if r.CoinName? && r.coin in NewCoins(b) then (b.height, b.tx.value.timestamp)
    else (t[r].confirmed, t[r].timestamp)
  }

  predicate ConditionOk(c: Condition, confirmed: (nat, nat), prevTxHeight: nat, timestamp: nat) {
    match c
    case HeightAbsolute(bound) => bound <= prevTxHeight
    case HeightRelative(age) => age + confirmed.0 <= prevTxHeight
    case SecondsAbsolute(time) => time <= timestamp
    case SecondsRelative(seconds) => seconds + confirmed.1 <= timestamp
    case ReserveFee(fee) => true
  }

  predicate LocksOpen(s: Spend, confirmed: (nat, nat), prevTxHeight: nat, timestamp: nat) {
    forall i :: 0 <= i < |s.conditions| ==> ConditionOk(s.conditions[i], confirmed, prevTxHeight, timestamp)
  }

  predicate SpendOk(s: Spend, confirmed: (nat, nat), prevTxHeight: nat, timestamp: nat) {
    && s.coinName.CoinName?
    && s.coinName.coin.puzzleHash == s.puzzleHash
    && LocksOpen(s, confirmed, prevTxHeight, timestamp)
  }

  function Amount(r: Id): int {
    if r.CoinName? then r.coin.amount else 0
  }

  function TotalAmount(s: seq<Id>): int {
    if s == [] then 0 else Amount(s[0]) + TotalAmount(s[1..])
  }

  function TotalCoins(s: seq<Coin>): int {
    if s == [] then 0 else s[0].amount + TotalCoins(s[1..])
  }

  function Reserved(conditions: seq<Condition>): int {
    if conditions == [] then 0
    else (if conditions[0].ReserveFee? then conditions[0].fee else 0) + Reserved(conditions[1..])
  }

  function TotalReserved(spends: seq<Spend>): int {
    if spends == [] then 0 else Reserved(spends[0].conditions) + TotalReserved(spends[1..])
  }

  predicate ReservesNonNegative(spends: seq<Spend>) {
    forall i, j :: 0 <= i < |spends| && 0 <= j < |spends[i].conditions| && spends[i].conditions[j].ReserveFee? ==>
      0 <= spends[i].conditions[j].fee
  }

  predicate RefsOk(b: Block) {
    && (b.refs != [] ==> b.generator.Some?)
    && |b.refs| <= MAX_GENERATOR_REF_LIST_SIZE
    && forall i :: 0 <= i < |b.refs| ==> b.refs[i] < b.height
  }

  predicate AmountsOk(coins: seq<Coin>) {
    forall i :: 0 <= i < |coins| ==> 0 <= coins[i].amount <= MAX_COIN_AMOUNT
  }

  predicate ClaimsOk(claims: seq<Coin>, expected: set<Coin>) {
    Elements(claims) == expected && |claims| == |expected|
  }

  /** The height that absolute and relative height locks are compared with. */
  function PrevTxHeight(chain: seq<Block>): nat {
    if LastTx(chain) < 0 then 0 else LastTx(chain)
  }

  ghost predicate FeesOk(b: Block, tx: TxBody) {
    && tx.fees == TotalAmount(Removals(tx.spends)) - TotalCoins(Additions(tx.spends))
    && 0 <= tx.fees
    && ReservesNonNegative(tx.spends)
    && TotalReserved(tx.spends) <= tx.fees
    && tx.fees + BaseFarmerReward(b.height) <= MAX_COIN_AMOUNT
  }

  predicate SpendAllowed(b: Block, s: Spend, t: Table, prevTxHeight: nat) {
    && b.tx.Some? && Spendable(t, b, s.coinName)
    && SpendOk(s, Confirmed(t, b, s.coinName), prevTxHeight, b.tx.value.timestamp)
  }

  predicate SpendsOk(b: Block, spends: seq<Spend>, t: Table, prevTxHeight: nat) {
    forall i :: 0 <= i < |spends| ==> SpendAllowed(b, spends[i], t, prevTxHeight)
  }

  /** Hashes, roots, cost and signature are right; without a generator nothing is spent. */
  predicate GeneratorOk(b: Block, tx: TxBody) {
    tx.authentic && (b.generator.None? ==> tx.spends == [])
  }

  /** The body rules, stated against the replay of the block's own ancestors and nothing else. */
  ghost predicate BodyOk(b: Block, chain: seq<Block>) {
    match b.tx
    case None => b.generator.None? && b.refs == []
    case Some(tx) =>
      && ClaimsOk(tx.claims, ExpectedRewards(chain))
      && RefsOk(b)
      && AmountsOk(NewCoins(b))
      && Distinct(NewCoins(b))
      && Distinct(Removals(tx.spends))
      && SpendsOk(b, tx.spends, Replay(chain), PrevTxHeight(chain))
      && FeesOk(b, tx)
      && GeneratorOk(b, tx)
  }

  /** The header rules the ledger relies on. */
  predicate HeaderOk(b: Block, chain: seq<Block>) {
    && b.height == |chain|
    && if chain == [] then
         && b.prevHash == GENESIS_CHALLENGE && b.weight == DIFFICULTY_STARTING
         && b.tx.Some? && b.tx.value.prevTxHash == GENESIS_CHALLENGE
       else
         var prev := chain[|chain| - 1];
         && b.prevHash == prev.hash
         && prev.weight < b.weight
         && (b.tx.Some? ==>
               var p := LastTx(chain);
               && p >= 0
               && b.tx.value.prevTxHash == chain[p].hash
               && chain[p].tx.value.timestamp < b.tx.value.timestamp)
  }

  ghost predicate ValidChain(chain: seq<Block>) {
    chain == [] ||
    var front, b := chain[..|chain| - 1], chain[|chain| - 1];
    ValidChain(front) && HeaderOk(b, front) && BodyOk(b, front)
  }

  lemma {:induction false} PrefixValid(chain: seq<Block>, n: nat)
    requires ValidChain(chain) && n <= |chain|
    ensures ValidChain(chain[..n])
  {
    if n == |chain| {
      assert chain[..n] == chain;
    } else {
      PrefixValid(chain[..|chain| - 1], n);
      assert chain[..|chain| - 1][..n] == chain[..n];
    }
  }

  lemma {:induction false} BlockValid(chain: seq<Block>, i: nat)
    requires ValidChain(chain) && i < |chain|
    ensures ValidChain(chain[..i]) && HeaderOk(chain[i], chain[..i]) && BodyOk(chain[i], chain[..i])
    ensures chain[i].height == i
  {
    if i < |chain| - 1 {
      var front := chain[..|chain| - 1];
      BlockValid(front, i);
      assert front[..i] == chain[..i] && front[i] == chain[i];
    }
  }

  lemma {:induction false} LastTxExists(chain: seq<Block>)
    requires ValidChain(chain) && chain != []
    ensures 0 <= LastTx(chain)
    ensures 0 < LastTx(chain) ==> 0 <= PrevLastTx(chain)
  {
    BlockValid(chain, 0);
    assert chain[..0] == [];
    if 0 < LastTx(chain) {
      assert chain[..LastTx(chain)][0] == chain[0];
    }
  }
}
