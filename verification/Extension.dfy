/** Which accepted chains can go on, and which cannot. */
module Extension {
  import opened Ledger
  import opened SignificantBits
  import opened PotIterations
  import opened HeaderChain
  import opened EpochRules
  import opened HeaderRules
  import opened Prefixes
  import opened Slots
  import opened TxSpacing
  import opened Deficits
  import opened InfusedChallenge
  import opened SignagePoints
  import opened Adjustments

  /** The slot of the last block has room for another block. */
  predicate SlotRoom(c: Constants, chain: seq<Record>)
    requires chain != []
  {
    |chain| - SlotFirst(chain, |chain| - 1) + 1 <= c.maxSlotBlocks
  }

  /** A new slot can follow: its length leaves room for required iterations, and a summary can be made if it is due. */
  ghost predicate SlotPossible(c: Constants, chain: seq<Record>)
    requires chain != []
  {
    var ssi := NextSsi(c, chain, |chain| - 1, true);
    && ssi.Some? && 2 * c.numSps <= ssi.value
    && (CanFinishSubEpoch(c, chain, |chain| - 1) ==> CanMakeSummary(c, chain, |chain|))
  }

  ghost predicate CanGoOn(c: Constants, chain: seq<Record>, newSlot: bool)
    requires chain != []
  {
    if newSlot then SlotPossible(c, chain) else SlotRoom(c, chain)
  }

  // ---- a next block ----

  ghost function NewSlot(c: Constants, chain: seq<Record>, ssi: nat, difficulty: nat): SubSlot
    requires chain != []
  {
    var h := |chain| - 1;
    var prev, icc := chain[h], FirstSlotIcc(c, chain, h);
    var infused := if icc.Needs? then Some(InfusedSlot(0, icc.vdf)) else None;
    var link := if icc.Needs? then Some(0) else None;
    var deficit := if prev.deficit == 0 then c.minBlocks else prev.deficit;
    SubSlot(
      Vdf(LastEnd(chain[SlotFirst(chain, h)]).cc, prev.ssi), 0,
      if deficit == c.minBlocks then link else None,
      if CanFinishSubEpoch(c, chain, h) then Some(0) else None,
      if CanFinishEpoch(c, chain, h) then Some(ssi) else None,
      if CanFinishEpoch(c, chain, h) then Some(difficulty) else None,
      infused, Vdf(prev.rcInfusion, prev.ssi - prev.ipIters), 0, link, deficit, 0)
  }

  /** The challenge and the VDFs to the signage point. */
  datatype Point = Point(challenge: Hash, cc: Option<Vdf>, rc: Option<Vdf>)

  /** How the next block is placed, and its parameters. */
  datatype Way = Way(newSlot: bool, overflow: bool, ssi: nat, difficulty: nat)

  /** The last signage point that overflows, or that does not. */
  function LastIndex(c: Constants, overflow: bool): int {
    if overflow then c.numSps - 1 else c.numSps - c.extra - 1
  }

  /** The last infusion point reached from there. */
  function LastIters(c: Constants, overflow: bool, ssi: nat): int {
    if overflow then c.extra * Interval(c, ssi) - 1 else ssi - 1
  }

  /** The next block, as late as possible in the slot. */
  ghost function Draft(c: Constants, chain: seq<Record>, way: Way, point: Point): Record
    requires chain != [] && 0 < c.extra < c.numSps && way.ssi > 0
  {
    var prev, t, ssi := chain[|chain| - 1], LastTxAt(chain, |chain| - 1), way.ssi;
    var slots := if way.newSlot then [NewSlot(c, chain, ssi, way.difficulty)] else [];
    var start: int := if way.newSlot then Start(prev) + prev.ssi else Start(prev);
    var index, ip := LastIndex(c, way.overflow), LastIters(c, way.overflow, ssi);
    var sp: int := start + SpIters(c, ssi, index) - if way.overflow then ssi else 0;
    var deficit := CalculateDeficit(c, Some(prev.deficit), way.overflow, |slots|);
    var later := 0 <= t && chain[t].timestamp.Some? && sp > chain[t].totalIters;
    var time := if later then Some(chain[t].timestamp.value + 1) else None;
    Record(
      0, |chain|, prev.weight + way.difficulty, if start + ip < 0 then 0 else start + ip, index,
      if Interval(c, ssi) == 0 then 0 else Interval(c, ssi) - 1, ssi, if ip < 0 then 0 else ip, sp,
      if deficit < 0 then 0 else deficit, way.overflow, time, slots, point.challenge, point.cc, point.rc,
      deficit < c.minBlocks - 1, 0, 0, true)
  }

  lemma Appended(chain: seq<Record>, r: Record)
    ensures Same(chain, chain + [r], |chain|)
  {
    forall k: nat ensures SameAt(chain, chain + [r], |chain|, k) {
    }
  }

  /** A block can overflow into a new slot that does not begin an epoch, or after another overflow block. */
  ghost predicate CanOverflow(c: Constants, chain: seq<Record>, newSlot: bool)
    requires chain != []
  {
    if newSlot then !CanFinishEpoch(c, chain, |chain| - 1) else chain[|chain| - 1].overflow
  }

  /** A valid chain that can go on, and the parameters of its next block. */
  ghost predicate Ready(c: Constants, chain: seq<Record>, way: Way) {
    && Sane(c) && chain != [] && ValidUpTo(c, chain, |chain|) && CanGoOn(c, chain, way.newSlot) && way.difficulty >= 1
    && NextSsi(c, chain, |chain| - 1, way.newSlot) == Some(way.ssi)
    && NextDifficulty(c, chain, |chain| - 1, way.newSlot) == Some(way.difficulty)
    && way.ssi > 0 && (way.overflow ==> CanOverflow(c, chain, way.newSlot))
  }

  lemma SameSsi(c: Constants, chain: seq<Record>, n: nat, h: nat, newSlot: bool)
    requires Sane(c) && ValidUpTo(c, chain, n) && h < n && (newSlot ==> !CanFinishEpoch(c, chain, h))
    ensures NextSsi(c, chain, h, newSlot) == Some(chain[h].ssi)
  {
    if h + 1 < c.epoch { FirstEpochSsi(c, chain, n, h); }
  }

  lemma TwoIntervals(c: Constants, ssi: nat)
    requires c.numSps > 0 && 2 * c.numSps <= ssi
    ensures Interval(c, ssi) >= 2
  {
    AtLeast(ssi, c.numSps, 2);
  }

  lemma RoomForIters(c: Constants, chain: seq<Record>, way: Way)
    requires Ready(c, chain, way)
    ensures way.ssi % c.numSps == 0 && Interval(c, way.ssi) >= 2
    ensures !way.newSlot || way.overflow ==> way.ssi == chain[|chain| - 1].ssi
  {
    var n := |chain|;
    NextParamsDefined(c, chain, n, n - 1, way.newSlot);
    SsiFacts(c, chain, n, n - 1);
    if !way.newSlot || way.overflow { SameSsi(c, chain, n, n - 1, way.newSlot); }
    if way.newSlot { TwoIntervals(c, way.ssi); } else { assert StructuralAt(c, chain, n, n - 1); }
  }

  lemma LastPoint(c: Constants, overflow: bool, ssi: nat)
    requires 0 < c.extra < c.numSps && ssi % c.numSps == 0 && Interval(c, ssi) >= 2
    ensures var index, required := LastIndex(c, overflow), Interval(c, ssi) - 1;
      && IterationsOk(c, ssi, index, required) && IsOverflow(c, index) == overflow
      && IpIters(c, ssi, index, required) == LastIters(c, overflow, ssi) > 0
  {
    var i, index := Interval(c, ssi), LastIndex(c, overflow);
    Formulas(c, ssi, index, i - 1);
    assert ssi == i * c.numSps;
    assert i * index + c.extra * i + i == i * (index + c.extra + 1);
    if overflow { assert i * (c.numSps + c.extra) == ssi + c.extra * i; }
  }

  /** The previous block is infused before the draft, and the draft's signage point is not negative. */
  lemma StartOfDraft(c: Constants, chain: seq<Record>, way: Way)
    requires Ready(c, chain, way)
    ensures var prev := chain[|chain| - 1];
      && Start(prev) >= 0 && 0 < prev.ipIters < prev.ssi
      && (way.overflow && !way.newSlot ==> prev.ipIters <= LastIters(c, true, way.ssi) && Start(prev) >= way.ssi)
  {
    var n := |chain|;
    RoomForIters(c, chain, way);
    StartNonNegative(c, chain, n, n - 1);
    BlockIters(c, chain, n, n - 1);
    if way.overflow && !way.newSlot { SlotBeforeOverflow(c, chain, n, n - 1); }
  }

  lemma ItersOfDraft(c: Constants, chain: seq<Record>, way: Way, point: Point)
    requires Ready(c, chain, way)
    ensures ItersOk(c, chain + [Draft(c, chain, way, point)], |chain|)
  {
    RoomForIters(c, chain, way);
    LastPoint(c, way.overflow, way.ssi);
    StartOfDraft(c, chain, way);
  }

  lemma ParamsNext(c: Constants, chain: seq<Record>, way: Way, e: seq<Record>)
    requires chain != [] && |e| == |chain| + 1 && Same(chain, e, |chain|) && (way.newSlot <==> e[|chain|].slots != [])
    requires NextSsi(c, chain, |chain| - 1, way.newSlot) == Some(way.ssi) && e[|chain|].ssi == way.ssi
    requires NextDifficulty(c, chain, |chain| - 1, way.newSlot) == Some(way.difficulty)
    requires e[|chain|].weight == chain[|chain| - 1].weight + way.difficulty
    ensures ParamsOk(c, e, |chain|) && Difficulty(e, |chain|) == way.difficulty
  {
    assert SameAt(chain, e, |chain|, |chain| - 1);
    NextSame(c, chain, e, |chain|, |chain| - 1, way.newSlot);
  }

  lemma ParamsOfDraft(c: Constants, chain: seq<Record>, way: Way, point: Point, e: seq<Record>)
    requires Ready(c, chain, way) && e == chain + [Draft(c, chain, way, point)]
    ensures ParamsOk(c, e, |chain|) && Difficulty(e, |chain|) == way.difficulty
  {
    Appended(chain, e[|chain|]);
    ParamsNext(c, chain, way, e);
  }

  /** The new slot is right after any chain with the same blocks before it. */
  lemma IccOfSlot(c: Constants, chain: seq<Record>, ssi: nat, difficulty: nat, e: seq<Record>)
    requires Sane(c) && chain != [] && ValidUpTo(c, chain, |chain|) && |e| == |chain| + 1 && Same(chain, e, |chain|)
    requires e[|chain|].slots == [NewSlot(c, chain, ssi, difficulty)]
    ensures SlotIccOk(c, e, |chain|, 0)
  {
    var n := |chain|;
    FirstSlotIccSame(c, chain, e, n, n - 1);
    assert SameAt(chain, e, n, n - 1);
    ValidSame(c, chain, e, n);
    SlotIccNeverRaises(c, e, n, 0);
  }

  lemma LinksOfSlot(c: Constants, chain: seq<Record>, ssi: nat, difficulty: nat, e: seq<Record>)
    requires chain != [] && |e| == |chain| + 1 && Same(chain, e, |chain|)
    requires e[|chain|].slots == [NewSlot(c, chain, ssi, difficulty)]
    ensures SlotChallengeOk(e, |chain|, 0)
  {
    var n := |chain|;
    SlotFirstSame(chain, e, n, n - 1);
    assert SameAt(chain, e, n, SlotFirst(chain, n - 1));
  }

  lemma VdfOfSlot(c: Constants, chain: seq<Record>, ssi: nat, difficulty: nat, e: seq<Record>)
    requires chain != [] && |e| == |chain| + 1 && Same(chain, e, |chain|)
    requires e[|chain|].slots == [NewSlot(c, chain, ssi, difficulty)]
    ensures SlotVdfOk(c, e, |chain|, 0) && SlotDeficitOk(c, e, |chain|, 0)
  {
    assert SameAt(chain, e, |chain|, |chain| - 1);
  }

  lemma ParamsOfSlot(c: Constants, chain: seq<Record>, ssi: nat, difficulty: nat, e: seq<Record>)
    requires chain != [] && |e| == |chain| + 1 && Same(chain, e, |chain|)
    requires e[|chain|].slots == [NewSlot(c, chain, ssi, difficulty)]
    requires e[|chain|].ssi == ssi && Difficulty(e, |chain|) == difficulty
    ensures SlotParamsOk(c, e, |chain|, 0)
  {
    CanFinishSame(c, chain, e, |chain|, |chain| - 1);
  }

  lemma SlotOfDraft(c: Constants, chain: seq<Record>, way: Way, point: Point, e: seq<Record>)
    requires Ready(c, chain, way) && way.newSlot && e == chain + [Draft(c, chain, way, point)]
    ensures SlotOk(c, e, |chain|, 0)
  {
    Appended(chain, e[|chain|]);
    IccOfSlot(c, chain, way.ssi, way.difficulty, e);
    ParamsOfDraft(c, chain, way, point, e);
    LinksOfSlot(c, chain, way.ssi, way.difficulty, e);
    VdfOfSlot(c, chain, way.ssi, way.difficulty, e);
    ParamsOfSlot(c, chain, way.ssi, way.difficulty, e);
  }

  lemma SummaryDue(c: Constants, chain: seq<Record>, e: seq<Record>)
    requires chain != [] && |e| == |chain| + 1 && Same(chain, e, |chain|) && |e[|chain|].slots| <= 1
    requires var slots, due := e[|chain|].slots, CanFinishSubEpoch(c, chain, |chain| - 1);
      slots != [] ==> (slots[0].summary.Some? <==> due) && (due ==> CanMakeSummary(c, chain, |chain|))
    ensures SummaryOk(c, e, |chain|)
  {
    var n := |chain|;
    CanFinishSame(c, chain, e, n, n - 1);
    LastSummarySame(chain, e, n, n - 2);
    assert e[n].slots != [] ==> HasSummary(e[n]) == e[n].slots[0].summary.Some?;
  }

  lemma SummaryOfDraft(c: Constants, chain: seq<Record>, way: Way, point: Point, e: seq<Record>)
    requires Ready(c, chain, way) && e == chain + [Draft(c, chain, way, point)]
    ensures SummaryOk(c, e, |chain|)
  {
    Appended(chain, e[|chain|]);
    SummaryDue(c, chain, e);
  }

  lemma SizeOfDraft(c: Constants, chain: seq<Record>, way: Way, point: Point, e: seq<Record>)
    requires Ready(c, chain, way) && e == chain + [Draft(c, chain, way, point)]
    ensures SlotSizeOk(c, e, |chain|)
  {
    Appended(chain, e[|chain|]);
    SlotFirstSame(chain, e, |chain|, |chain| - 1);
  }

  lemma OverflowOfDraft(c: Constants, chain: seq<Record>, way: Way, e: seq<Record>)
    requires chain != [] && |e| == |chain| + 1 && Same(chain, e, |chain|) && (way.newSlot <==> e[|chain|].slots != [])
    requires e[|chain|].overflow == way.overflow && (way.overflow ==> CanOverflow(c, chain, way.newSlot))
    ensures EpochOverflowOk(c, e, |chain|)
  {
    CanFinishSame(c, chain, e, |chain|, |chain| - 1);
  }

  lemma TxOfDraft(c: Constants, chain: seq<Record>, way: Way, point: Point, e: seq<Record>)
    requires Ready(c, chain, way) && e == chain + [Draft(c, chain, way, point)]
    ensures TxOk(e, |chain|)
  {
    var n := |chain|;
    Appended(chain, e[n]);
    LastTxSame(chain, e, n, n - 1);
    TxRule(c, chain, n, 0);
    assert SameAt(chain, e, n, LastTxAt(chain, n - 1));
  }

  lemma DeficitOfDraft(c: Constants, chain: seq<Record>, way: Way, point: Point, e: seq<Record>)
    requires Ready(c, chain, way) && e == chain + [Draft(c, chain, way, point)]
    ensures e[|chain|].deficit == CalculateDeficit(c, PrevDeficit(e, |chain|), way.overflow, |e[|chain|].slots|)
    ensures e[|chain|].iccIp <==> e[|chain|].deficit < c.minBlocks - 1
  {
  }

  lemma DraftStructural(c: Constants, chain: seq<Record>, way: Way, point: Point, e: seq<Record>)
    requires Ready(c, chain, way) && e == chain + [Draft(c, chain, way, point)]
    ensures Structural(c, e, |chain|)
  {
    ItersOfDraft(c, chain, way, point);
    ParamsOfDraft(c, chain, way, point, e);
    if way.newSlot { SlotOfDraft(c, chain, way, point, e); }
    SummaryOfDraft(c, chain, way, point, e);
    SizeOfDraft(c, chain, way, point, e);
    Appended(chain, e[|chain|]);
    OverflowOfDraft(c, chain, way, e);
    TxOfDraft(c, chain, way, point, e);
    DeficitOfDraft(c, chain, way, point, e);
  }

  // ---- the theorem ----

  /** The challenge and VDFs for a next block, where they are defined. */
  ghost function PointAt(chain: seq<Record>, slots: seq<SubSlot>, overflow: bool, index: nat, sp: int,
                         iters: int): Point {
    var challenge := BlockChallenge(chain, |chain|, slots, overflow, false);
    var v := SignagePointVdf(chain, |chain|, slots, overflow, sp, iters);
    Point(if challenge.Some? then challenge.value else 0,
          if index == 0 || v.None? then None else Some(Vdf(v.value.cc, iters)),
          if index == 0 || v.None? then None else Some(Vdf(v.value.rc, v.value.iters)))
  }

  ghost function PointFor(c: Constants, chain: seq<Record>, r: Record): Point {
    PointAt(chain, r.slots, r.overflow, r.spIndex, r.spTotal, SpIters(c, r.ssi, r.spIndex))
  }

  ghost predicate AtPoint(r: Record, p: Point) {
    r.posChallenge == p.challenge && r.ccSp == p.cc && r.rcSp == p.rc
  }

  lemma PointRight(c: Constants, chain: seq<Record>, e: seq<Record>)
    requires Sane(c) && |e| == |chain| + 1 && Same(chain, e, |chain|) && ValidUpTo(c, e, |e|)
    requires !e[|chain|].overflow || |e[0].slots| != 1
    requires AtPoint(e[|chain|], PointFor(c, chain, e[|chain|]))
    ensures SignagePointOk(c, e, |chain|)
  {
    var n, r := |chain|, e[|chain|];
    ChallengeSame(chain, e, n, r.slots, r.overflow, false);
    VdfSame(chain, e, n, r.slots, r.overflow, r.spTotal, SpIters(c, r.ssi, r.spIndex));
    ChallengeMissing(c, e, n);
    ChallengesAgree(c, e, n);
  }

  lemma InfusedOfValid(c: Constants, e: seq<Record>, n: nat)
    requires Sane(c) && ValidUpTo(c, e, n + 1)
    ensures InfusedOk(c, e, n)
  {
    PrefixValid(c, e, n + 1, n);
    AllSlotsPass(c, e, n + 1, n);
    DeficitRule(c, e, n + 1, n);
    IccPresence(c, e, n + 1, n);
    InfusedNeverRaises(c, e, n);
  }

  lemma FinishedAccepted(c: Constants, chain: seq<Record>, e: seq<Record>)
    requires Sane(c) && |e| == |chain| + 1 && Same(chain, e, |chain|) && ValidUpTo(c, chain, |chain|)
    requires Structural(c, e, |chain|) && (!e[|chain|].overflow || |e[0].slots| != 1)
    requires AtPoint(e[|chain|], PointFor(c, chain, e[|chain|]))
    ensures Accepted(c, e, |chain|)
  {
    var n := |chain|;
    ValidSame(c, chain, e, n);
    ExtendValid(c, e, n);
    PointRight(c, chain, e);
    InfusedOfValid(c, e, n);
  }

  lemma DraftAtPoint(c: Constants, chain: seq<Record>, way: Way, point: Point)
    requires chain != [] && 0 < c.extra < c.numSps && way.ssi > 0
    ensures var a, r := Draft(c, chain, way, Point(0, None, None)), Draft(c, chain, way, point);
      && r.slots == a.slots && r.overflow == a.overflow && r.spIndex == a.spIndex && r.spTotal == a.spTotal
      && r.ssi == a.ssi && AtPoint(r, point)
  {
  }

  /** A next block. A chain in whose first slot a block can overflow is left out, see `ChallengeMissing`. */
  lemma DraftAccepted(c: Constants, chain: seq<Record>, way: Way) returns (r: Record)
    requires Ready(c, chain, way) && (!way.overflow || |chain[0].slots| != 1)
    ensures Accepted(c, chain + [r], |chain|)
    ensures r.overflow == way.overflow && (r.slots != [] <==> way.newSlot) && |r.slots| <= 1
    ensures r.weight == chain[|chain| - 1].weight + way.difficulty
    ensures var t := LastTxAt(chain, |chain| - 1);
      IsTx(r) ==> 0 <= t && r.timestamp.value == chain[t].timestamp.value + 1
  {
    var point := PointFor(c, chain, Draft(c, chain, way, Point(0, None, None)));
    r := Draft(c, chain, way, point);
    Appended(chain, r);
    DraftStructural(c, chain, way, point, chain + [r]);
    DraftAtPoint(c, chain, way, point);
    FinishedAccepted(c, chain, chain + [r]);
  }

  /** The way of a next block that does not overflow. */
  lemma WayOn(c: Constants, chain: seq<Record>, newSlot: bool) returns (way: Way)
    requires Sane(c) && chain != [] && ValidUpTo(c, chain, |chain|) && CanGoOn(c, chain, newSlot)
    ensures Ready(c, chain, way) && way.newSlot == newSlot && !way.overflow
  {
    var n := |chain|;
    NextParamsDefined(c, chain, n, n - 1, newSlot);
    SsiFacts(c, chain, n, n - 1);
    way := Way(newSlot, false, NextSsi(c, chain, n - 1, newSlot).value, NextDifficulty(c, chain, n - 1, newSlot).value);
  }

  lemma GoesOn(c: Constants, chain: seq<Record>, newSlot: bool)
    requires Sane(c) && chain != [] && ValidUpTo(c, chain, |chain|) && CanGoOn(c, chain, newSlot)
    ensures exists r :: Accepted(c, chain + [r], |chain|)
  {
    var way := WayOn(c, chain, newSlot);
    var r := DraftAccepted(c, chain, way);
  }

  /** Only these two ways lead on. */
  lemma MustGoOn(c: Constants, chain: seq<Record>, r: Record)
    requires Sane(c) && chain != [] && ValidUpTo(c, chain, |chain|) && Structural(c, chain + [r], |chain|)
    ensures CanGoOn(c, chain, r.slots != [])
  {
    var n, e := |chain|, chain + [r];
    Appended(chain, r);
    if r.slots == [] {
      SlotFirstSame(chain, e, n, n - 1);
    } else {
      NextSame(c, chain, e, n, n - 1, true);
      CanFinishSame(c, chain, e, n, n - 1);
      LastSummarySame(chain, e, n, n - 2);
      RequiredRoom(c, r.ssi, r.spIndex, r.required);
    }
  }

  lemma RequiredRoom(c: Constants, ssi: nat, index: nat, required: nat)
    requires IterationsOk(c, ssi, index, required)
    ensures 2 * c.numSps <= ssi
  {
    MulLe(2, ssi / c.numSps, c.numSps);
  }

  /** An accepted chain can go on exactly if its slot has room, or a new slot is long enough and a summary due with it
      can be made. */
  lemma ExtendsExact(c: Constants, chain: seq<Record>)
    requires Sane(c) && chain != [] && ValidHeaders(c, chain)
    ensures (exists r :: ValidHeaders(c, chain + [r])) <==> SlotRoom(c, chain) || SlotPossible(c, chain)
  {
    AcceptedIsStructural(c, chain);
    if SlotRoom(c, chain) { GoesOn(c, chain, false); } else if SlotPossible(c, chain) { GoesOn(c, chain, true); }
    forall r ensures ValidHeaders(c, chain + [r]) <==> Accepted(c, chain + [r], |chain|) { HeadersNext(c, chain, r); }
    if r :| Accepted(c, chain + [r], |chain|) { MustGoOn(c, chain, r); }
  }

  lemma HeadersNext(c: Constants, chain: seq<Record>, r: Record)
    requires ValidHeaders(c, chain)
    ensures ValidHeaders(c, chain + [r]) <==> Accepted(c, chain + [r], |chain|)
  {
    var e := chain + [r];
    Appended(chain, r);
    if ValidHeaders(c, e) { assert AcceptedAt(c, e, |chain|); }
    if Accepted(c, e, |chain|) {
      forall i: nat ensures AcceptedAt(c, e, i) {
        assert AcceptedAt(c, chain, i);
        if i < |chain| { AcceptedSame(c, chain, e, |chain|, i); }
      }
    }
  }
}
