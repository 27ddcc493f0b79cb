/** The code that finds a block's challenge and the VDF to its signage point. */
module SignagePointCode {
  import opened Ledger
  import opened PotIterations
  import opened HeaderChain

  /** Walks back to the first block of the slot. */
  method BackToSlotFirst(chain: seq<Record>, j: nat) returns (f: nat)
    requires j < |chain|
    ensures f == SlotFirst(chain, j)
  {
    f := j;
    while !First(chain, f)
      invariant SlotFirst(chain, f) == SlotFirst(chain, j)
      invariant f <= j
      decreases f
    {
      f := f - 1;
    }
  }

  /** The slots that ended just before block `k`, newest first. */
  function EndsAt(chain: seq<Record>, k: nat): seq<SlotEnd>
    requires k < |chain|
  {
    if First(chain, k) then Backwards(Ends(chain[k])) else []
  }

  /** `found` are the finished slots above block `low` and up to `j`; to be unfolded only where it is needed. */
  ghost predicate Collected(chain: seq<Record>, j: nat, found: seq<SlotEnd>, low: int)
    requires low <= j < |chain|
  {
    forall use :: CollectedFor(chain, j, found, low, use)
  }

  ghost predicate CollectedFor(chain: seq<Record>, j: nat, found: seq<SlotEnd>, low: int, use: bool)
    requires low <= j < |chain|
  {
    AllEnds(chain, j) == found + AllEnds(chain, low)
  }

  lemma CollectStep(chain: seq<Record>, j: nat, found: seq<SlotEnd>, low: nat)
    requires low <= j < |chain| && Collected(chain, j, found, low)
    ensures Collected(chain, j, found + EndsAt(chain, low), low - 1)
  {
    assert CollectedFor(chain, j, found, low, true);
    assert AllEnds(chain, low) == EndsAt(chain, low) + AllEnds(chain, low - 1);
    Append3(found, EndsAt(chain, low), AllEnds(chain, low - 1));
  }

  lemma Append3(a: seq<SlotEnd>, b: seq<SlotEnd>, c: seq<SlotEnd>)
    ensures a + (b + c) == a + b + c
  {
  }

  lemma CollectStart(chain: seq<Record>, j: nat)
    requires j < |chain|
    ensures Collected(chain, j, [], j)
  {
    assert [] + AllEnds(chain, j) == AllEnds(chain, j);
  }

  lemma {:induction false} CollectEnd(chain: seq<Record>, j: nat, found: seq<SlotEnd>, low: int)
    requires low <= j < |chain| && Collected(chain, j, found, low)
    ensures found <= AllEnds(chain, j) && (low < 0 ==> found == AllEnds(chain, j))
  {
    assert CollectedFor(chain, j, found, low, true);
  }

  /** The newest finished slots at or before `j`, at least `want` of them if there are that many. */
  method NewestEnds(chain: seq<Record>, j: nat, want: nat) returns (found: seq<SlotEnd>)
    requires j < |chain|
    ensures found <= AllEnds(chain, j) && (|found| >= want || found == AllEnds(chain, j))
  {
    found := [];
    var curr: int := j;
    CollectStart(chain, j);
    while |found| < want && curr >= 0
      invariant -1 <= curr <= j && Collected(chain, j, found, curr)
      decreases curr
    {
      CollectStep(chain, j, found, curr);
      found := found + EndsAt(chain, curr);
      curr := curr - 1;
    }
    CollectEnd(chain, j, found, curr);
  }

  method GetBlockChallenge(chain: seq<Record>, i: nat, slots: seq<SubSlot>, overflow: bool, skip: bool)
    returns (challenge: Option<Hash>)
    requires i <= |chain|
    ensures challenge == BlockChallenge(chain, i, slots, overflow, skip)
  {
    if |slots| > 0 {
      var last := slots[|slots| - 1];
      return if overflow && !skip then Some(last.ccVdf.challenge) else Some(last.ccHash);
    }
    if i == 0 { return Some(GENESIS_CHALLENGE); }
    var want := if overflow && !skip then 2 else 1;
    var found := NewestEnds(chain, i - 1, want);
    return if |found| < want then None else Some(found[want - 1].cc);
  }

  /** Cases 4 and 6: the signage point is in the slot of the block before. */
  method VdfInPrevSlot(chain: seq<Record>, i: nat, slots: seq<SubSlot>, overflow: bool, sp: int, spIters: int)
    returns (v: Option<SpVdf>)
    requires 0 < i <= |chain| && if overflow then |slots| == 1 else slots == []
    ensures v == SignagePointVdf(chain, i, slots, overflow, sp, spIters)
  {
    var curr := i - 1;
    while !First(chain, curr) && chain[curr].totalIters > sp
      invariant 0 <= curr < i && WalkToSp(chain, curr, sp) == WalkToSp(chain, i - 1, sp)
      decreases curr
    {
      curr := curr - 1;
    }
    var f := BackToSlotFirst(chain, curr);
    var cc := LastEnd(chain[f]).cc;
    if chain[curr].totalIters < sp {
      return Some(SpVdf(cc, chain[curr].rcInfusion, Some(curr), sp - chain[curr].totalIters));
    }
    if !First(chain, curr) { return None; }
    return Some(SpVdf(cc, LastEnd(chain[curr]).rc, None, spIters));
  }

  /** Among the blocks above `low` and up to `j`, `pre` is the last one before the signage point. */
  ghost predicate LatestAbove(chain: seq<Record>, j: nat, low: int, sp: int, pre: Option<nat>)
    requires j < |chain|
  {
    && (pre.Some? ==> low < pre.value <= j && chain[pre.value].totalIters < sp)
    && forall m: nat :: NotLater(chain, j, low, sp, pre, m)
  }

  ghost predicate NotLater(chain: seq<Record>, j: nat, low: int, sp: int, pre: Option<nat>, m: nat)
    requires j < |chain|
  {
    low < m <= j && (pre.Some? ==> pre.value < m) ==> chain[m].totalIters >= sp
  }

  lemma {:induction false} LatestIsLastBefore(chain: seq<Record>, j: nat, low: nat, sp: int, pre: Option<nat>)
    requires low <= j < |chain| && LatestAbove(chain, j, low - 1, sp, pre)
    ensures LastBefore(chain, j, low, sp) == if pre.Some? then pre.value else -1
  {
    var k := LastBefore(chain, j, low, sp);
    if k != -1 { assert NotLater(chain, j, low - 1, sp, pre, k); }
  }

  /** Where the search for two finished slots stops, when it has found `have` above block `curr` and in it. */
  ghost predicate StopsAs(chain: seq<Record>, j: nat, curr: nat, have: nat)
    requires curr <= j < |chain|
  {
    forall use :: StopsFor(chain, j, curr, have, use)
  }

  ghost predicate StopsFor(chain: seq<Record>, j: nat, curr: nat, have: nat, use: bool)
    requires curr <= j < |chain|
  {
    TwoEndsStop(chain, j, 0) == if have >= 2 || curr == 0 then curr else TwoEndsStop(chain, curr - 1, have)
  }

  lemma StopStep(chain: seq<Record>, j: nat, curr: nat, have: nat)
    requires 0 < curr <= j < |chain| && have < 2 && StopsAs(chain, j, curr, have)
    ensures StopsAs(chain, j, curr - 1, have + |EndsAt(chain, curr - 1)|)
  {
    assert StopsFor(chain, j, curr, have, true);
  }

  lemma LatestStep(chain: seq<Record>, j: nat, curr: nat, sp: int, pre: Option<nat>)
    requires curr <= j < |chain| && LatestAbove(chain, j, curr, sp, pre)
    ensures LatestAbove(chain, j, curr - 1, sp, if pre.None? && chain[curr].totalIters < sp then Some(curr) else pre)
  {
    var p := if pre.None? && chain[curr].totalIters < sp then Some(curr) else pre;
    var low := curr - 1;
    forall m: nat ensures NotLater(chain, j, low, sp, p, m) { assert NotLater(chain, j, curr, sp, pre, m); }
  }

  /** The search of case 5, at block `curr`. */
  ghost predicate Searched(chain: seq<Record>, j: nat, curr: nat, found: seq<SlotEnd>, sp: int, pre: Option<nat>)
    requires curr <= j < |chain|
  {
    forall use :: SearchedFor(chain, j, curr, found, sp, pre, use)
  }

  ghost predicate SearchedFor(chain: seq<Record>, j: nat, curr: nat, found: seq<SlotEnd>, sp: int, pre: Option<nat>,
                              use: bool)
    requires curr <= j < |chain|
  {
    && Collected(chain, j, found, curr - 1) && StopsAs(chain, j, curr, |found|)
    && LatestAbove(chain, j, curr, sp, pre)
  }

  lemma CollectOn(chain: seq<Record>, j: nat, curr: nat, found: seq<SlotEnd>, all: seq<SlotEnd>)
    requires 0 < curr <= j < |chain| && Collected(chain, j, found, curr - 1) && all == found + EndsAt(chain, curr - 1)
    ensures Collected(chain, j, all, curr - 2)
  {
    CollectStep(chain, j, found, curr - 1);
  }

  lemma StopOn(chain: seq<Record>, j: nat, curr: nat, found: seq<SlotEnd>, all: seq<SlotEnd>)
    requires 0 < curr <= j < |chain| && |found| < 2 && StopsAs(chain, j, curr, |found|)
    requires all == found + EndsAt(chain, curr - 1)
    ensures StopsAs(chain, j, curr - 1, |all|)
  {
    StopStep(chain, j, curr, |found|);
  }

  lemma SearchStep(chain: seq<Record>, j: nat, curr: nat, found: seq<SlotEnd>, sp: int, pre: Option<nat>,
                   all: seq<SlotEnd>, latest: Option<nat>)
    requires 0 < curr <= j < |chain| && |found| < 2 && Searched(chain, j, curr, found, sp, pre)
    requires all == found + EndsAt(chain, curr - 1)
    requires latest == if pre.None? && chain[curr].totalIters < sp then Some(curr) else pre
    ensures Searched(chain, j, curr - 1, all, sp, latest)
  {
    assert SearchedFor(chain, j, curr, found, sp, pre, true);
    CollectOn(chain, j, curr, found, all);
    StopOn(chain, j, curr, found, all);
    LatestStep(chain, j, curr, sp, pre);
  }

  method SearchBack(chain: seq<Record>, j: nat, curr: nat, found: seq<SlotEnd>, sp: int, pre: Option<nat>)
    returns (more: seq<SlotEnd>, latest: Option<nat>)
    requires 0 < curr <= j < |chain| && |found| < 2 && Searched(chain, j, curr, found, sp, pre)
    ensures Searched(chain, j, curr - 1, more, sp, latest)
  {
    latest := if pre.None? && chain[curr].totalIters < sp then Some(curr) else pre;
    more := found + EndsAt(chain, curr - 1);
    SearchStep(chain, j, curr, found, sp, pre, more, latest);
  }

  lemma SearchStart(chain: seq<Record>, j: nat, sp: int)
    requires j < |chain|
    ensures Searched(chain, j, j, EndsAt(chain, j), sp, None)
  {
    CollectStart(chain, j);
    CollectStep(chain, j, [], j);
    assert [] + EndsAt(chain, j) == EndsAt(chain, j);
  }

  lemma {:induction false} StopIs(chain: seq<Record>, j: nat, curr: nat, have: nat)
    requires curr <= j < |chain| && StopsAs(chain, j, curr, have) && (have >= 2 || curr == 0)
    ensures TwoEndsStop(chain, j, 0) == curr
  {
    assert StopsFor(chain, j, curr, have, true);
  }

  lemma {:induction false} TwoFound(chain: seq<Record>, j: nat, found: seq<SlotEnd>, low: int)
    requires low <= j < |chain| && Collected(chain, j, found, low) && (|found| >= 2 || low < 0)
    ensures |AllEnds(chain, j)| < 2 <==> |found| < 2
    ensures |found| >= 2 ==> AllEnds(chain, j)[1] == found[1]
  {
    CollectEnd(chain, j, found, low);
  }

  /** Case 5 of the specification. */
  lemma {:induction false} VdfBySearch(chain: seq<Record>, i: nat, sp: int, spIters: int, k: int)
    requires 0 < i <= |chain| && k == LastBefore(chain, i - 1, TwoEndsStop(chain, i - 1, 0), sp)
    ensures var ends := AllEnds(chain, i - 1);
      SignagePointVdf(chain, i, [], true, sp, spIters) ==
        if |ends| < 2 then None
        else if k >= 0 then Some(SpVdf(ends[1].cc, chain[k].rcInfusion, Some(k), sp - chain[k].totalIters))
        else Some(SpVdf(ends[1].cc, ends[1].rc, None, spIters))
  {
  }

  lemma SearchDone(chain: seq<Record>, i: nat, curr: nat, found: seq<SlotEnd>, sp: int, spIters: int, p: Option<nat>)
    requires curr < i <= |chain| && (|found| >= 2 || curr == 0) && Collected(chain, i - 1, found, curr - 1)
    requires StopsAs(chain, i - 1, curr, |found|) && LatestAbove(chain, i - 1, curr - 1, sp, p)
    ensures SignagePointVdf(chain, i, [], true, sp, spIters) ==
        if |found| < 2 then None
        else if p.Some? then Some(SpVdf(found[1].cc, chain[p.value].rcInfusion, p, sp - chain[p.value].totalIters))
        else Some(SpVdf(found[1].cc, found[1].rc, None, spIters))
  {
    StopIs(chain, i - 1, curr, |found|);
    TwoFound(chain, i - 1, found, curr - 1);
    LatestIsLastBefore(chain, i - 1, curr, sp, p);
    VdfBySearch(chain, i, sp, spIters, if p.Some? then p.value else -1);
  }

  /** Case 5: the signage point is in the slot before that of the block before. */
  method VdfTwoSlotsBack(chain: seq<Record>, i: nat, sp: int, spIters: int) returns (v: Option<SpVdf>)
    requires 0 < i <= |chain|
    ensures v == SignagePointVdf(chain, i, [], true, sp, spIters)
  {
    var curr := i - 1;
    var found := EndsAt(chain, curr);
    var pre: Option<nat> := None;
    SearchStart(chain, i - 1, sp);
    while |found| < 2 && curr > 0
      invariant 0 <= curr < i && Searched(chain, i - 1, curr, found, sp, pre)
      decreases curr
    {
      found, pre := SearchBack(chain, i - 1, curr, found, sp, pre);
      curr := curr - 1;
    }
    v := VdfFound(chain, i, curr, found, sp, spIters, pre);
  }

  method VdfFound(chain: seq<Record>, i: nat, curr: nat, found: seq<SlotEnd>, sp: int, spIters: int, pre: Option<nat>)
    returns (v: Option<SpVdf>)
    requires curr < i <= |chain| && (|found| >= 2 || curr == 0) && Searched(chain, i - 1, curr, found, sp, pre)
    ensures v == SignagePointVdf(chain, i, [], true, sp, spIters)
  {
    assert SearchedFor(chain, i - 1, curr, found, sp, pre, true);
    LatestStep(chain, i - 1, curr, sp, pre);
    var last := if pre.None? && chain[curr].totalIters < sp then Some(curr) else pre;
    SearchDone(chain, i, curr, found, sp, spIters, last);
    if |found| < 2 { return None; }
    if last.Some? {
      return Some(SpVdf(found[1].cc, chain[last.value].rcInfusion, last, sp - chain[last.value].totalIters));
    }
    return Some(SpVdf(found[1].cc, found[1].rc, None, spIters));
  }

  method GetSignagePointVdfInfo(chain: seq<Record>, i: nat, slots: seq<SubSlot>, overflow: bool, sp: int, spIters: int)
    returns (v: Option<SpVdf>)
    requires i <= |chain|
    ensures v == SignagePointVdf(chain, i, slots, overflow, sp, spIters)
  {
    var n := |slots|;
    if n > 0 && !overflow {
      return Some(SpVdf(slots[n - 1].ccHash, slots[n - 1].rcHash, None, spIters));
    } else if n > 1 {
      return Some(SpVdf(slots[n - 2].ccHash, slots[n - 2].rcHash, None, spIters));
    } else if i == 0 {
      return Some(SpVdf(GENESIS_CHALLENGE, GENESIS_CHALLENGE, None, spIters));
    } else if n == 1 || !overflow {
      v := VdfInPrevSlot(chain, i, slots, overflow, sp, spIters);
    } else {
      v := VdfTwoSlotsBack(chain, i, sp, spIters);
    }
  }
}
