/** The challenge of a block and the VDF to its signage point belong to the same slot, and the VDF starts
    at the last point before the signage point at which anything was infused. */
module SignagePoints {
  import opened Ledger
  import opened SignificantBits
  import opened PotIterations
  import opened HeaderChain
  import opened EpochRules
  import opened HeaderRules
  import opened Slots

  /** The finished slot at whose end the slot with the signage point of block `i` begins. There is none to
      be found only for a later overflow block in the slot of a first block that followed one empty slot. */
  function SignageSlot(chain: seq<Record>, i: nat): Option<SlotEnd>
    requires i < |chain|
  {
    var f := SlotFirst(chain, i);
    var ends := Ends(chain[f]);
    if !chain[i].overflow then Some(LastEnd(chain[f]))
    else if |ends| >= 2 then Some(ends[|ends| - 2])
    else if f > 0 then Some(LastEnd(chain[SlotFirst(chain, f - 1)]))
    else if i == 0 then Some(SlotEnd(GENESIS_CHALLENGE, GENESIS_CHALLENGE))
    else None
  }

  /** Total iterations at which that slot begins. */
  function SignageStart(r: Record): int {
    Start(r) - if r.overflow then r.ssi else 0
  }

  // ---- the list of finished slots ----

  lemma EndsSkip(chain: seq<Record>, j: nat)
    requires j < |chain| && !First(chain, j)
    ensures AllEnds(chain, j) == AllEnds(chain, j - 1)
  {
    var rest := AllEnds(chain, j - 1);
    assert [] + rest == rest;
  }

  lemma {:induction false} EndsOfSlot(chain: seq<Record>, j: nat)
    requires j < |chain|
    ensures var f := SlotFirst(chain, j); AllEnds(chain, j) == Backwards(Ends(chain[f])) + AllEnds(chain, f - 1)
  {
    if !First(chain, j) {
      EndsSkip(chain, j);
      EndsOfSlot(chain, j - 1);
    }
  }

  lemma FirstTwo(ends: seq<SlotEnd>, rest: seq<SlotEnd>, all: seq<SlotEnd>)
    requires ends != [] && all == Backwards(ends) + rest
    ensures |all| == |ends| + |rest| && all[0] == ends[|ends| - 1]
    ensures |ends| >= 2 ==> all[1] == ends[|ends| - 2]
    ensures |ends| == 1 && rest != [] ==> all[1] == rest[0]
  {
  }

  /** The newest finished slots at or before `j` are those before the first block of its slot, and then those
      before the first block of the slot before. */
  ghost predicate NewestTwo(chain: seq<Record>, j: nat, all: seq<SlotEnd>)
    requires j < |chain|
  {
    var f := SlotFirst(chain, j);
    var ends := Ends(chain[f]);
    && |all| >= 1 && all[0] == LastEnd(chain[f])
    && (|all| < 2 <==> f == 0 && |ends| == 1)
    && (|all| >= 2 ==> all[1] == if |ends| >= 2 then ends[|ends| - 2] else LastEnd(chain[SlotFirst(chain, f - 1)]))
  }

  lemma {:induction false} NewestEnd(chain: seq<Record>, j: nat)
    requires j < |chain|
    ensures AllEnds(chain, j) != [] && AllEnds(chain, j)[0] == LastEnd(chain[SlotFirst(chain, j)])
  {
    if First(chain, j) {
      var ends := Backwards(Ends(chain[j]));
      assert AllEnds(chain, j) == ends + AllEnds(chain, j - 1) && ends[0] == LastEnd(chain[j]);
    } else {
      EndsSkip(chain, j);
      NewestEnd(chain, j - 1);
    }
  }

  lemma NewestTwoFrom(chain: seq<Record>, j: nat, f: nat, rest: seq<SlotEnd>, all: seq<SlotEnd>)
    requires j < |chain| && f == SlotFirst(chain, j) && all == Backwards(Ends(chain[f])) + rest
    requires if f == 0 then rest == [] else rest != [] && rest[0] == LastEnd(chain[SlotFirst(chain, f - 1)])
    ensures NewestTwo(chain, j, all)
  {
    FirstTwo(Ends(chain[f]), rest, all);
  }

  lemma {:induction false} NewestTwoEnds(chain: seq<Record>, j: nat)
    requires j < |chain|
    ensures NewestTwo(chain, j, AllEnds(chain, j))
  {
    var f: int := SlotFirst(chain, j);
    EndsOfSlot(chain, j);
    if f > 0 { NewestEnd(chain, f - 1); }
    NewestTwoFrom(chain, j, f, AllEnds(chain, f - 1), AllEnds(chain, j));
  }

  /** In a slot that has begun before, the signage slot is the newest or the second newest finished one. */
  lemma SignageSlotInList(chain: seq<Record>, i: nat, all: seq<SlotEnd>)
    requires 0 < i < |chain| && chain[i].slots == [] && NewestTwo(chain, i - 1, all)
    ensures SignageSlot(chain, i) ==
      if !chain[i].overflow then Some(all[0]) else if |all| < 2 then None else Some(all[1])
  {
    assert SlotFirst(chain, i) == SlotFirst(chain, i - 1);
  }

  // ---- the challenge ----

  lemma SlotChallengeRule(c: Constants, chain: seq<Record>, n: nat, i: nat, k: nat)
    requires ValidUpTo(c, chain, n) && i < n && k < |chain[i].slots|
    ensures SlotChallengeOk(chain, i, k)
  {
    assert StructuralAt(c, chain, n, i);
    assert SlotOk(c, chain, i, k);
  }

  function Cc(e: Option<SlotEnd>): Option<Hash> {
    if e.None? then None else Some(e.value.cc)
  }

  lemma ChallengeInNewSlot(c: Constants, chain: seq<Record>, i: nat)
    requires Sane(c) && ValidUpTo(c, chain, i + 1) && chain[i].slots != []
    ensures BlockChallenge(chain, i, chain[i].slots, chain[i].overflow, false) == Cc(SignageSlot(chain, i))
  {
    SlotChallengeRule(c, chain, i + 1, i, |chain[i].slots| - 1);
  }

  lemma ChallengeInSameSlot(c: Constants, chain: seq<Record>, i: nat)
    requires Sane(c) && ValidUpTo(c, chain, i + 1) && chain[i].slots == []
    ensures BlockChallenge(chain, i, chain[i].slots, chain[i].overflow, false) == Cc(SignageSlot(chain, i))
  {
    if i > 0 {
      NewestTwoEnds(chain, i - 1);
      SignageSlotInList(chain, i, AllEnds(chain, i - 1));
    } else if chain[0].overflow {
      SlotBeforeOverflow(c, chain, 1, 0);
    }
  }

  /** The challenge is that of the slot with the signage point. */
  lemma ChallengeOfSlot(c: Constants, chain: seq<Record>, i: nat)
    requires Sane(c) && ValidUpTo(c, chain, i + 1)
    ensures BlockChallenge(chain, i, chain[i].slots, chain[i].overflow, false) == Cc(SignageSlot(chain, i))
  {
    if chain[i].slots != [] { ChallengeInNewSlot(c, chain, i); } else { ChallengeInSameSlot(c, chain, i); }
  }

  /** The exact case in which the look-back comes up short. */
  lemma {:induction false} ChallengeMissing(c: Constants, chain: seq<Record>, i: nat)
    requires Sane(c) && ValidUpTo(c, chain, i + 1)
    ensures BlockChallenge(chain, i, chain[i].slots, chain[i].overflow, false).None?
       <==> i > 0 && chain[i].overflow && SlotFirst(chain, i) == 0 && |chain[0].slots| == 1
  {
    ChallengeOfSlot(c, chain, i);
    SlotMissing(c, chain, i);
  }

  lemma {:induction false} SlotMissing(c: Constants, chain: seq<Record>, i: nat)
    requires Sane(c) && ValidUpTo(c, chain, i + 1)
    ensures SignageSlot(chain, i).None? <==>
      i > 0 && chain[i].overflow && SlotFirst(chain, i) == 0 && |chain[0].slots| == 1
  {
    if chain[i].overflow { SlotBeforeOverflow(c, chain, i + 1, i); }
  }

  lemma EarlyWithSlots(chain: seq<Record>, i: nat)
    requires i < |chain| && chain[i].overflow && |chain[i].slots| > 1
    ensures var known := chain[i].slots[..|chain[i].slots| - 1];
      BlockChallenge(chain, i, known, true, true) == Cc(SignageSlot(chain, i))
  {
  }

  lemma EarlyWithoutSlots(chain: seq<Record>, i: nat)
    requires 0 < i < |chain| && chain[i].overflow && |chain[i].slots| == 1
    ensures BlockChallenge(chain, i, [], true, true) == Cc(SignageSlot(chain, i))
  {
    NewestTwoEnds(chain, i - 1);
    assert SignageSlot(chain, i) == Some(LastEnd(chain[SlotFirst(chain, i - 1)]));
  }

  /** The same challenge comes out while the last slot of an overflow block is not known yet. */
  lemma ChallengeKnownEarly(chain: seq<Record>, i: nat)
    requires i < |chain| && chain[i].overflow && chain[i].slots != []
    ensures var known := chain[i].slots[..|chain[i].slots| - 1];
      BlockChallenge(chain, i, known, true, true) == Cc(SignageSlot(chain, i))
  {
    if |chain[i].slots| > 1 {
      EarlyWithSlots(chain, i);
    } else {
      assert chain[i].slots[..0] == [];
      if i > 0 { EarlyWithoutSlots(chain, i); }
    }
  }

  // ---- where the VDF starts ----

  /** The VDF starts at the beginning of the slot with nothing infused from there to the signage point, or
      at the last block infused in that slot before the signage point. */
  ghost predicate StartsRight(chain: seq<Record>, i: nat, v: SpVdf, end: SlotEnd)
    requires i < |chain|
  {
    var r, low := chain[i], SignageStart(chain[i]);
    match v.input
    case None =>
      && v.rc == end.rc && low + v.iters == r.spTotal
      && forall j :: 0 <= j < i ==> chain[j].totalIters < low || chain[j].totalIters > r.spTotal
    case Some(k) =>
      && k < i && v.rc == chain[k].rcInfusion && chain[k].totalIters + v.iters == r.spTotal
      && v.iters > 0 && Start(chain[k]) == low
      && forall j :: k < j < i ==> chain[j].totalIters > r.spTotal
  }

  function VdfOf(c: Constants, chain: seq<Record>, i: nat): Option<SpVdf>
    requires i < |chain|
  {
    var r := chain[i];
    SignagePointVdf(chain, i, r.slots, r.overflow, r.spTotal, SpIters(c, r.ssi, r.spIndex))
  }

  ghost predicate VdfRight(c: Constants, chain: seq<Record>, i: nat)
    requires i < |chain|
  {
    var v, end := VdfOf(c, chain, i), SignageSlot(chain, i);
    && (v.Some? <==> end.Some?)
    && (v.Some? ==> v.value.cc == end.value.cc && StartsRight(chain, i, v.value, end.value))
  }

  /** No block of the slot with the signage point is infused exactly at it. */
  lemma NotAtSp(c: Constants, chain: seq<Record>, i: nat, j: nat)
    requires Sane(c) && ValidUpTo(c, chain, i + 1) && j < i
    requires Start(chain[j]) == SignageStart(chain[i]) && chain[j].ssi == chain[i].ssi
    ensures chain[j].totalIters != chain[i].spTotal
  {
    assert StructuralAt(c, chain, i + 1, j);
    BlockIters(c, chain, i + 1, i);
    InfusionBetweenSps(c, chain[j].ssi, chain[j].spIndex, chain[j].required, chain[i].spIndex);
  }

  /** The block starts a new slot, and its signage point is in that slot or in an empty one before it, or
      there is no block before it. */
  lemma VdfFromSlot(c: Constants, chain: seq<Record>, i: nat)
    requires Sane(c) && ValidUpTo(c, chain, i + 1)
    requires i == 0 || (chain[i].slots != [] && (!chain[i].overflow || |chain[i].slots| > 1))
    ensures VdfRight(c, chain, i)
  {
    BlockIters(c, chain, i + 1, i);
    if chain[i].overflow { SlotBeforeOverflow(c, chain, i + 1, i); }
    if i > 0 {
      IpInSlot(c, chain, i + 1, i - 1);
      SlotSteps(c, chain, i + 1, i);
      forall j | 0 <= j < i ensures chain[j].totalIters < SignageStart(chain[i]) {
        Ordered(c, chain, i + 1, j, i - 1);
      }
    }
  }

  /** What walking back through the slot of the block before finds. */
  lemma {:induction false} VdfOfWalk(chain: seq<Record>, i: nat, sp: int, spIters: int)
    requires 0 < i < |chain| && if chain[i].overflow then |chain[i].slots| == 1 else chain[i].slots == []
    requires chain[WalkToSp(chain, i - 1, sp)].totalIters != sp
    ensures var s := WalkToSp(chain, i - 1, sp); var end := LastEnd(chain[SlotFirst(chain, i - 1)]);
      && SignageSlot(chain, i) == Some(end)
      && (chain[s].totalIters > sp ==> First(chain, s))
      && SignagePointVdf(chain, i, chain[i].slots, chain[i].overflow, sp, spIters) == Some(
          if chain[s].totalIters < sp then SpVdf(end.cc, chain[s].rcInfusion, Some(s), sp - chain[s].totalIters)
          else SpVdf(end.cc, end.rc, None, spIters))
  {
    SameFirst(chain, WalkToSp(chain, i - 1, sp), i - 1);
  }

  lemma {:induction false} SameFirst(chain: seq<Record>, s: nat, j: nat)
    requires s <= j < |chain| && forall k :: s < k <= j ==> !First(chain, k)
    ensures SlotFirst(chain, s) == SlotFirst(chain, j)
  {
    if s < j {
      SameFirst(chain, s, j - 1);
      assert !First(chain, j);
    }
  }

  /** The signage point is in the slot of the block before. */
  lemma VdfFromWalk(c: Constants, chain: seq<Record>, i: nat)
    requires Sane(c) && ValidUpTo(c, chain, i + 1) && i > 0
    requires if chain[i].overflow then |chain[i].slots| == 1 else chain[i].slots == []
    ensures VdfRight(c, chain, i)
  {
    var n, r := i + 1, chain[i];
    BlockIters(c, chain, n, i);
    SlotSteps(c, chain, n, i);
    if r.overflow { SlotBeforeOverflow(c, chain, n, i); }
    var s := WalkToSp(chain, i - 1, r.spTotal);
    SameSlot(c, chain, n, s, i - 1);
    NotAtSp(c, chain, i, s);
    VdfOfWalk(chain, i, r.spTotal, SpIters(c, r.ssi, r.spIndex));
    if chain[s].totalIters > r.spTotal {
      forall j | 0 <= j < i ensures chain[j].totalIters < SignageStart(r) || chain[j].totalIters > r.spTotal {
        if j < s { EarlierSlot(c, chain, n, j, s); } else { Ordered(c, chain, n, s, j); }
      }
    }
  }

  lemma {:induction false} StopSkips(chain: seq<Record>, j: nat, have: nat)
    requires j < |chain| && have < 2
    ensures TwoEndsStop(chain, j, have) == TwoEndsStop(chain, SlotFirst(chain, j), have)
  {
    if !First(chain, j) { StopSkips(chain, j - 1, have); }
  }

  /** The search ends at the first block of the slot if that follows two finished slots or is block 0, and else
      at the first block of the slot before. */
  lemma StopAtSecond(chain: seq<Record>, j: nat)
    requires j < |chain|
    ensures var f := SlotFirst(chain, j);
      TwoEndsStop(chain, j, 0) == if f == 0 || |Ends(chain[f])| >= 2 then f else SlotFirst(chain, f - 1)
  {
    var f := SlotFirst(chain, j);
    StopSkips(chain, j, 0);
    if f > 0 && |Ends(chain[f])| < 2 { StopSkips(chain, f - 1, 1); }
  }

  /** The first block of the slot with the signage point, or of the slot after it if that one is empty. */
  function SearchEnd(chain: seq<Record>, i: nat): (low: nat)
    requires i < |chain|
    ensures low <= i
  {
    var f := SlotFirst(chain, i);
    if f == 0 || |Ends(chain[f])| >= 2 then f else SlotFirst(chain, f - 1)
  }

  lemma SearchFinds(chain: seq<Record>, i: nat, end: SlotEnd)
    requires 0 < i < |chain| && chain[i].slots == [] && chain[i].overflow && SignageSlot(chain, i) == Some(end)
    ensures |AllEnds(chain, i - 1)| >= 2 && AllEnds(chain, i - 1)[1] == end
  {
    NewestTwoEnds(chain, i - 1);
    SignageSlotInList(chain, i, AllEnds(chain, i - 1));
  }

  lemma {:induction false} SearchStops(chain: seq<Record>, i: nat)
    requires 0 < i < |chain| && chain[i].slots == []
    ensures TwoEndsStop(chain, i - 1, 0) == SearchEnd(chain, i)
  {
    assert SlotFirst(chain, i) == SlotFirst(chain, i - 1);
    StopAtSecond(chain, i - 1);
  }

  /** What the search through two slots finds. */
  lemma {:induction false} VdfOfSearch(chain: seq<Record>, i: nat, end: SlotEnd, sp: int, spIters: int)
    requires 0 < i < |chain| && chain[i].slots == [] && chain[i].overflow && SignageSlot(chain, i) == Some(end)
    ensures var k := LastBefore(chain, i - 1, SearchEnd(chain, i), sp);
      SignagePointVdf(chain, i, [], true, sp, spIters) == Some(
        if k >= 0 then SpVdf(end.cc, chain[k].rcInfusion, Some(k), sp - chain[k].totalIters)
        else SpVdf(end.cc, end.rc, None, spIters))
  {
    SearchFinds(chain, i, end);
    SearchStops(chain, i);
  }

  /** How the blocks before an overflow block in its slot lie around its signage point. */
  ghost predicate AroundSp(chain: seq<Record>, i: nat, j: nat)
    requires j < i < |chain|
  {
    var r, f := chain[i], SlotFirst(chain, i);
    && (j >= f ==> chain[j].totalIters > r.spTotal)
    && (SearchEnd(chain, i) <= j < f ==> Start(chain[j]) == SignageStart(r) && chain[j].totalIters != r.spTotal)
    && (j < SearchEnd(chain, i) ==> chain[j].totalIters < SignageStart(r))
  }

  lemma BlocksAroundSp(c: Constants, chain: seq<Record>, i: nat, j: nat)
    requires Sane(c) && ValidUpTo(c, chain, i + 1) && j < i && chain[i].overflow
    ensures AroundSp(chain, i, j)
  {
    var n, f, low := i + 1, SlotFirst(chain, i), SearchEnd(chain, i);
    SlotBeforeOverflow(c, chain, n, i);
    if j >= f {
      SameSlot(c, chain, n, j, i);
      IpInSlot(c, chain, n, j);
    } else if j >= low {
      SameSlot(c, chain, n, j, f - 1);
      NotAtSp(c, chain, i, j);
    } else if low < f {
      SameSlot(c, chain, n, low, f - 1);
      EarlierSlot(c, chain, n, j, low);
    } else {
      IpInSlot(c, chain, n, f - 1);
      Ordered(c, chain, n, j, f - 1);
    }
  }

  lemma VdfInSearch(c: Constants, chain: seq<Record>, i: nat)
    requires Sane(c) && ValidUpTo(c, chain, i + 1) && i > 0 && chain[i].slots == [] && chain[i].overflow
    requires SignageSlot(chain, i).Some?
    ensures VdfRight(c, chain, i)
  {
    VdfOfSearch(chain, i, SignageSlot(chain, i).value, chain[i].spTotal, SpIters(c, chain[i].ssi, chain[i].spIndex));
    BlockIters(c, chain, i + 1, i);
    forall j | 0 <= j < i ensures AroundSp(chain, i, j) { BlocksAroundSp(c, chain, i, j); }
    var k := LastBefore(chain, i - 1, SearchEnd(chain, i), chain[i].spTotal);
    if k >= 0 {
      assert AroundSp(chain, i, k);
      forall j | k < j < i ensures chain[j].totalIters > chain[i].spTotal { assert AroundSp(chain, i, j); }
    } else {
      forall j | 0 <= j < i ensures chain[j].totalIters < SignageStart(chain[i]) ||
          chain[j].totalIters > chain[i].spTotal {
        assert AroundSp(chain, i, j);
      }
    }
  }

  lemma {:induction false} VdfMissing(c: Constants, chain: seq<Record>, i: nat)
    requires i > 0 && i < |chain| && chain[i].slots == [] && chain[i].overflow
    requires SlotFirst(chain, i) == 0 && |Ends(chain[0])| == 1
    ensures VdfRight(c, chain, i)
  {
    NewestTwoEnds(chain, i - 1);
    SignageSlotInList(chain, i, AllEnds(chain, i - 1));
  }

  /** In every case the VDF to the signage point has the slot's challenge, starts at the right point and has the
      right number of iterations; it is undefined exactly where the challenge is. */
  lemma SignagePointReached(c: Constants, chain: seq<Record>, i: nat)
    requires Sane(c) && ValidUpTo(c, chain, i + 1)
    ensures VdfRight(c, chain, i)
  {
    var slots, overflow := chain[i].slots, chain[i].overflow;
    if i == 0 || (slots != [] && (!overflow || |slots| > 1)) {
      VdfFromSlot(c, chain, i);
    } else if !overflow || |slots| == 1 {
      VdfFromWalk(c, chain, i);
    } else if SignageSlot(chain, i).Some? {
      VdfInSearch(c, chain, i);
    } else {
      VdfMissing(c, chain, i);
    }
  }

  /** The two ways to find the challenge agree, and are defined for the same blocks. */
  lemma ChallengesAgree(c: Constants, chain: seq<Record>, i: nat)
    requires Sane(c) && ValidUpTo(c, chain, i + 1)
    ensures var v, ch := VdfOf(c, chain, i), BlockChallenge(chain, i, chain[i].slots, chain[i].overflow, false);
      (v.Some? <==> ch.Some?) && (v.Some? ==> v.value.cc == ch.value)
  {
    ChallengeOfSlot(c, chain, i);
    SignagePointReached(c, chain, i);
  }

  /** So do they while the last slot of an overflow block is not known, with anything in its place. */
  lemma ChallengesAgreeEarly(c: Constants, chain: seq<Record>, i: nat, dummy: SubSlot)
    requires Sane(c) && ValidUpTo(c, chain, i + 1) && chain[i].overflow && chain[i].slots != []
    ensures var r := chain[i]; var known := r.slots[..|r.slots| - 1];
      var v := SignagePointVdf(chain, i, known + [dummy], true, r.spTotal, SpIters(c, r.ssi, r.spIndex));
      v == VdfOf(c, chain, i) && v.Some? && BlockChallenge(chain, i, known, true, true) == Some(v.value.cc)
  {
    ChallengeKnownEarly(chain, i);
    SignagePointReached(c, chain, i);
  }
}
