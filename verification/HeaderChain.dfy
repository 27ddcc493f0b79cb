/** Block records along one chain, indexed by height, and what is read off by walking back. Hashes are
    plain numbers; a VDF is named by its challenge and its number of iterations. */
module HeaderChain {
  import opened Ledger
  import opened PotIterations

  datatype Vdf = Vdf(challenge: Hash, iters: int)

  datatype InfusedSlot = InfusedSlot(hash: Hash, vdf: Vdf)

  /** An end-of-sub-slot bundle: challenge chain, infused challenge chain and reward chain. */
  datatype SubSlot = SubSlot(
    ccVdf: Vdf,
    ccHash: Hash,
    ccIcc: Option<Hash>,
    summary: Option<Hash>,
    newSsi: Option<nat>,
    newDifficulty: Option<nat>,
    icc: Option<InfusedSlot>,
    rcVdf: Vdf,
    rcCcHash: Hash,
    rcIcc: Option<Hash>,
    rcDeficit: nat,
    rcHash: Hash)

  /** A header block together with its record. `required` is the number of iterations its proof of
      space demands; `ipIters` and `spTotal` are the record's computed properties; `iccIp` says whether
      it has an infused challenge VDF at the infusion point; and `authentic` is the outcome of the
      checks on proofs, signatures and hashes. */
  datatype Record = Record(
    hash: Hash,
    height: nat,
    weight: nat,
    totalIters: nat,
    spIndex: nat,
    required: nat,
    ssi: nat,
    ipIters: nat,
    spTotal: int,
    deficit: nat,
    overflow: bool,
    timestamp: Option<nat>,
    slots: seq<SubSlot>,
    posChallenge: Hash,
    ccSp: Option<Vdf>,
    rcSp: Option<Vdf>,
    iccIp: bool,
    rcInfusion: Hash,
    challengeInfo: Hash,
    authentic: bool)

  // ---- one record ----

  predicate IsTx(r: Record) { r.timestamp.Some? }

  predicate IsChallenge(c: Constants, r: Record) { r.deficit + 1 == c.minBlocks }

  predicate HasSummary(r: Record) { exists k :: 0 <= k < |r.slots| && r.slots[k].summary.Some? }

  /** Total iterations at the start of the slot in which the block is infused. */
  function Start(r: Record): int { r.totalIters - r.ipIters }

  // ---- slots ----

  predicate First(chain: seq<Record>, i: nat)
    requires i < |chain|
  {
    i == 0 || chain[i].slots != []
  }

  /** The first block of the slot that block `i` is in. */
  function SlotFirst(chain: seq<Record>, i: nat): (f: nat)
    requires i < |chain|
    ensures f <= i && First(chain, f) && forall j :: f < j <= i ==> !First(chain, j)
  {
    if First(chain, i) then i else SlotFirst(chain, i - 1)
  }

  datatype SlotEnd = SlotEnd(cc: Hash, rc: Hash)

  /** The slots that ended just before a first block, oldest first. */
  function Ends(r: Record): (e: seq<SlotEnd>)
    ensures |e| >= 1 && |e| == if r.slots == [] then 1 else |r.slots|
  {
    if r.slots == [] then [SlotEnd(GENESIS_CHALLENGE, GENESIS_CHALLENGE)]
    else seq(|r.slots|, k requires 0 <= k < |r.slots| => SlotEnd(r.slots[k].ccHash, r.slots[k].rcHash))
  }

  function LastEnd(r: Record): SlotEnd { Ends(r)[|Ends(r)| - 1] }

  // ---- summaries ----

  function WindowStart(c: Constants, i: nat): nat {
    if c.subEpoch == 0 then i else i - i % c.subEpoch
  }

  ghost predicate NoSummary(chain: seq<Record>, low: nat, high: nat) {
    forall j :: low <= j < high && j < |chain| ==> !HasSummary(chain[j])
  }

  /** A summary can follow block `h`: the first window is over, the deficit is paid off, and neither
      `h` nor a block before it in the window of the next height has one. */
  ghost predicate CanFinishSubEpoch(c: Constants, chain: seq<Record>, h: nat)
    requires h < |chain|
  {
    && h + 1 >= c.subEpoch && chain[h].deficit == 0 && !HasSummary(chain[h])
    && NoSummary(chain, WindowStart(c, h + 1), h)
  }

  predicate CanBeFirstInEpoch(c: Constants, i: nat) {
    c.epoch > 0 && WindowStart(c, i) % c.epoch == 0
  }

  ghost predicate CanFinishEpoch(c: Constants, chain: seq<Record>, h: nat)
    requires h < |chain|
  {
    CanFinishSubEpoch(c, chain, h) && CanBeFirstInEpoch(c, h + 1)
  }

  // ---- transaction blocks ----

  /** The last transaction block at or before `j`, or -1. */
  function LastTxAt(chain: seq<Record>, j: int): (t: int)
    requires j < |chain|
    ensures -1 <= t && (j >= -1 ==> t <= j)
    ensures t >= 0 ==> t <= j && IsTx(chain[t])
    ensures forall k :: t < k <= j ==> !IsTx(chain[k])
    decreases if j < 0 then 0 else j + 1
  {
    if j < 0 then -1 else if IsTx(chain[j]) then j else LastTxAt(chain, j - 1)
  }

  // ---- the infused challenge chain ----

  /** Back to the nearest challenge block or first block of a slot. */
  function IccStop(c: Constants, chain: seq<Record>, j: nat): (s: nat)
    requires j < |chain|
    ensures s <= j && (IsChallenge(c, chain[s]) || First(chain, s))
    ensures forall k :: s < k <= j ==> !IsChallenge(c, chain[k]) && !First(chain, k)
  {
    if IsChallenge(c, chain[j]) || First(chain, j) then j else IccStop(c, chain, j - 1)
  }

  function IccHashes(slots: seq<SubSlot>): seq<Hash> {
    if slots == [] then [] else (if slots[0].icc.Some? then [slots[0].icc.value.hash] else []) + IccHashes(slots[1..])
  }

  /** The infused challenge VDF that a finished slot has to carry; `Raises` where the code would. */
  datatype ExpectedIcc = Raises | NoIcc | Needs(vdf: Vdf)

  /** For the first slot finished after block `h`. */
  function FirstSlotIcc(c: Constants, chain: seq<Record>, h: nat): ExpectedIcc
    requires h < |chain|
  {
    var stop := IccStop(c, chain, h);
    var list := IccHashes(chain[stop].slots);
    if chain[h].deficit >= c.minBlocks then NoIcc
    else if IsChallenge(c, chain[stop]) then Needs(Vdf(chain[stop].challengeInfo, chain[h].ssi - chain[stop].ipIters))
    else if list == [] then Raises
    else Needs(Vdf(list[|list| - 1], chain[h].ssi))
  }

  function SlotIcc(c: Constants, chain: seq<Record>, i: nat, k: nat): ExpectedIcc
    requires 0 < i < |chain| && k < |chain[i].slots|
  {
    var prev := chain[i - 1];
    if prev.deficit >= c.minBlocks then NoIcc
    else if k == 0 then FirstSlotIcc(c, chain, i - 1)
    else
      var before := chain[i].slots[k - 1];
      if before.rcDeficit >= c.minBlocks then NoIcc
      else if before.icc.None? then Raises
      else Needs(Vdf(before.icc.value.hash, prev.ssi))
  }

  /** The challenge of the infused challenge VDF at the infusion point; none where the code would raise. */
  function IpIccChallenge(c: Constants, chain: seq<Record>, i: nat): Option<Hash>
    requires 0 < i < |chain|
  {
    var slots := chain[i].slots;
    if slots != [] then
      var last := slots[|slots| - 1];
      if last.icc.None? then None else Some(last.icc.value.hash)
    else
      var stop := IccStop(c, chain, i - 1);
      var list := IccHashes(chain[stop].slots);
      if IsChallenge(c, chain[stop]) then Some(chain[stop].challengeInfo)
      else if list == [] then None
      else Some(list[|list| - 1])
  }

  // ---- challenges and signage points ----

  /** All finished slots at or before block `j`, newest first. */
  function AllEnds(chain: seq<Record>, j: int): seq<SlotEnd>
    requires j < |chain|
    decreases if j < 0 then 0 else j + 1
  {
    if j < 0 then [] else (if First(chain, j) then Backwards(Ends(chain[j])) else []) + AllEnds(chain, j - 1)
  }

  function Backwards(s: seq<SlotEnd>): (r: seq<SlotEnd>)
    ensures |r| == |s| && forall k :: 0 <= k < |s| ==> r[k] == s[|s| - 1 - k]
  {
    seq(|s|, k requires 0 <= k < |s| => s[|s| - 1 - k])
  }

  /** The challenge a proof of space has to answer. `skip` says that the last slot is not known yet. */
  function BlockChallenge(chain: seq<Record>, i: nat, slots: seq<SubSlot>, overflow: bool, skip: bool): Option<Hash>
    requires i <= |chain|
  {
    if slots != [] then
      var last := slots[|slots| - 1];
      Some(if overflow && !skip then last.ccVdf.challenge else last.ccHash)
    else if i == 0 then Some(GENESIS_CHALLENGE)
    else
      var want := if overflow && !skip then 2 else 1;
      var ends := AllEnds(chain, i - 1);
      if |ends| < want then None else Some(ends[want - 1].cc)
  }

  /** How to get to a signage point: challenges, the block whose output is the input (none for the
      identity), and the number of iterations. */
  datatype SpVdf = SpVdf(cc: Hash, rc: Hash, input: Option<nat>, iters: int)

  /** Back to a first block of a slot or a block not after the signage point. */
  function WalkToSp(chain: seq<Record>, j: nat, sp: int): (s: nat)
    requires j < |chain|
    ensures s <= j && (First(chain, s) || chain[s].totalIters <= sp)
    ensures forall k :: s < k <= j ==> !First(chain, k) && chain[k].totalIters > sp
  {
    if First(chain, j) || chain[j].totalIters <= sp then j else WalkToSp(chain, j - 1, sp)
  }

  /** Where the search for two finished slots ends. */
  function TwoEndsStop(chain: seq<Record>, j: nat, have: nat): (s: nat)
    requires j < |chain|
    ensures s <= j
  {
    var now := have + if First(chain, j) then |Ends(chain[j])| else 0;
    if now >= 2 || j == 0 then j else TwoEndsStop(chain, j - 1, now)
  }

  /** The last block from `low` to `j` before the signage point, or -1. */
  function LastBefore(chain: seq<Record>, j: int, low: nat, sp: int): (k: int)
    requires j < |chain|
    ensures k == -1 || (low <= k <= j && chain[k].totalIters < sp)
    ensures forall m: nat :: low <= m <= j && k < m ==> chain[m].totalIters >= sp
    decreases if j < 0 then 0 else j + 1
  {
    if j < low then -1 else if chain[j].totalIters < sp then j else LastBefore(chain, j - 1, low, sp)
  }

  /** None where the code would raise. */
  function SignagePointVdf(chain: seq<Record>, i: nat, slots: seq<SubSlot>, overflow: bool, sp: int,
                           spIters: int): Option<SpVdf>
    requires i <= |chain|
  {
    var n := |slots|;
    if n > 0 && !overflow then
      Some(SpVdf(slots[n - 1].ccHash, slots[n - 1].rcHash, None, spIters))
    else if n > 1 then
      Some(SpVdf(slots[n - 2].ccHash, slots[n - 2].rcHash, None, spIters))
    else if i == 0 then
      Some(SpVdf(GENESIS_CHALLENGE, GENESIS_CHALLENGE, None, spIters))
    else if n == 1 || !overflow then
      var s := WalkToSp(chain, i - 1, sp);
      var cc := LastEnd(chain[SlotFirst(chain, s)]).cc;
      if chain[s].totalIters < sp then Some(SpVdf(cc, chain[s].rcInfusion, Some(s), sp - chain[s].totalIters))
      else if First(chain, s) then Some(SpVdf(cc, LastEnd(chain[s]).rc, None, spIters))
      else None
    else
      var ends := AllEnds(chain, i - 1);
      var k := LastBefore(chain, i - 1, TwoEndsStop(chain, i - 1, 0), sp);
      if |ends| < 2 then None
      else if k >= 0 then Some(SpVdf(ends[1].cc, chain[k].rcInfusion, Some(k), sp - chain[k].totalIters))
      else Some(SpVdf(ends[1].cc, ends[1].rc, None, spIters))
  }
}
