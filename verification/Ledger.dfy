/** Coins, coin records, blocks and the block reward schedule.
    Hashing is symbolic: the name of a coin is the coin itself under a constructor, and the parent
    id of a reward coin is a constructor of its own. So names are injective, reward parents are
    not coin names, and no coin is its own ancestor. Header hashes are plain numbers. */
module Ledger {
  datatype Option<+T> = None | Some(value: T)

  type Hash = nat
  type PuzzleHash = nat

  datatype Id =
    | CoinName(coin: Coin)
    | PoolParent(height: nat)
    | FarmerParent(height: nat)

  datatype Coin = Coin(parent: Id, puzzleHash: PuzzleHash, amount: int)

  datatype CoinRecord = CoinRecord(
    coin: Coin,
    confirmed: nat,
    spentIndex: nat,
    spent: bool,
    coinbase: bool,
    timestamp: nat)

  datatype Condition =
    | HeightAbsolute(bound: int)
    | HeightRelative(age: int)
    | SecondsAbsolute(time: int)
    | SecondsRelative(seconds: int)
    | ReserveFee(fee: int)

  datatype Output = Output(puzzleHash: PuzzleHash, amount: int)

  /** What running the generator yields for one spent coin. */
  datatype Spend = Spend(
    coinName: Id,
    puzzleHash: PuzzleHash,
    outputs: seq<Output>,
    conditions: seq<Condition>)

  /** The part a block has if and only if it is a transaction block. `authentic` is the outcome of the checks
      on hashes, roots, filter, cost and aggregate signature. */
  datatype TxBody = TxBody(
    prevTxHash: Hash,
    timestamp: nat,
    claims: seq<Coin>,
    spends: seq<Spend>,
    fees: int,
    authentic: bool)

  datatype Block = Block(
    hash: Hash,
    prevHash: Hash,
    height: nat,
    weight: nat,
    poolPuzzle: PuzzleHash,
    farmerPuzzle: PuzzleHash,
    ses: Option<nat>,
    generator: Option<nat>,
    refs: seq<nat>,
    tx: Option<TxBody>)

  const MAX_COIN_AMOUNT: int := 0xFFFF_FFFF_FFFF_FFFF
  const MAX_GENERATOR_REF_LIST_SIZE: nat := 512
  const DIFFICULTY_STARTING: nat := 1
  const GENESIS_CHALLENGE: Hash := 0

  ghost predicate Distinct<T>(s: seq<T>) {
    forall i, j :: 0 <= i < j < |s| ==> s[i] != s[j]
  }

  function Elements<T(==,!new)>(s: seq<T>): (r: set<T>)
    ensures forall x :: x in r <==> x in s
  {
    set x | x in s
  }

  /** Coins created by one spend, in the order of its CREATE_COIN conditions. */
  function Outputs(s: Spend): (r: seq<Coin>)
    ensures forall c :: c in r ==> c.parent == s.coinName
  {
    seq(|s.outputs|, i requires 0 <= i < |s.outputs| =>
      Coin(s.coinName, s.outputs[i].puzzleHash, s.outputs[i].amount))
  }

  function Additions(spends: seq<Spend>): seq<Coin> {
    if spends == [] then [] else Outputs(spends[0]) + Additions(spends[1..])
  }

  function Removals(spends: seq<Spend>): (r: seq<Id>)
    ensures |r| == |spends|
    ensures forall i :: 0 <= i < |r| ==> r[i] == spends[i].coinName
  {
    seq(|spends|, i requires 0 <= i < |spends| => spends[i].coinName)
  }

  lemma {:induction false} AdditionHasParent(spends: seq<Spend>, c: Coin)
    requires c in Additions(spends)
    ensures c.parent in Removals(spends)
  {
    if c in Outputs(spends[0]) {
      assert Removals(spends)[0] == c.parent;
    } else {
      AdditionHasParent(spends[1..], c);
      var i :| 0 <= i < |spends| - 1 && Removals(spends[1..])[i] == c.parent;
      assert Removals(spends)[i + 1] == c.parent;
    }
  }

  // ---- reward schedule ----

  const BYTE_PER_COIN: nat := 1_000_000_000_000
  const BLOCKS_PER_YEAR: nat := 1_681_920

  function PoolReward(height: nat): nat {
    if height == 0 then 7 * 3_500_000 * BYTE_PER_COIN / 8
    else if height < 3 * BLOCKS_PER_YEAR then 7 * 2 * BYTE_PER_COIN / 8
    else if height < 6 * BLOCKS_PER_YEAR then 7 * BYTE_PER_COIN / 8
    else if height < 9 * BLOCKS_PER_YEAR then 7 * BYTE_PER_COIN / 16
    else if height < 12 * BLOCKS_PER_YEAR then 7 * BYTE_PER_COIN / 32
    else 7 * BYTE_PER_COIN / 64
  }

  function BaseFarmerReward(height: nat): nat {
    if height == 0 then 3_500_000 * BYTE_PER_COIN / 8
    else if height < 3 * BLOCKS_PER_YEAR then 2 * BYTE_PER_COIN / 8
    else if height < 6 * BLOCKS_PER_YEAR then BYTE_PER_COIN / 8
    else if height < 9 * BLOCKS_PER_YEAR then BYTE_PER_COIN / 16
    else if height < 12 * BLOCKS_PER_YEAR then BYTE_PER_COIN / 32
    else BYTE_PER_COIN / 64
  }

  function Halved(x: nat, times: nat): nat {
    if times == 0 then x else Halved(x, times - 1) / 2
  }

  /** The whole reward of a height: the pre-farm, then two coins, halved every three years up to four times;
      seven eighths go to the pool. */
  lemma RewardSchedule(height: nat)
    ensures PoolReward(height) == 7 * BaseFarmerReward(height)
    ensures PoolReward(height) + BaseFarmerReward(height) ==
      if height == 0 then 3_500_000 * BYTE_PER_COIN
      else
        var periods := height / (3 * BLOCKS_PER_YEAR);
        Halved(2 * BYTE_PER_COIN, if periods < 4 then periods else 4)
  {
    var x := 2 * BYTE_PER_COIN;
    assert Halved(x, 1) == x / 2 && Halved(x, 2) == x / 4;
    assert Halved(x, 3) == Halved(x, 2) / 2 == x / 8;
    assert Halved(x, 4) == Halved(x, 3) / 2 == x / 16;
  }

  function Fees(b: Block): int {
    if b.tx.Some? then b.tx.value.fees else 0
  }

  function PoolCoin(b: Block): Coin {
    Coin(PoolParent(b.height), b.poolPuzzle, PoolReward(b.height))
  }

  /** The fees a block collected are paid with its farmer reward. */
  function FarmerCoin(b: Block): Coin {
    Coin(FarmerParent(b.height), b.farmerPuzzle, BaseFarmerReward(b.height) + Fees(b))
  }
}
