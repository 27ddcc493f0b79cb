/** Blocks by header hash, linked to their parents, and the point where two branches part. */
module BlockTree {
  import opened Ledger

  type Tree = map<Hash, Block>

  predicate Attached(m: Tree, b: Block) {
    b.height > 0 ==> b.prevHash in m && m[b.prevHash].height + 1 == b.height
  }

  ghost predicate WellFormed(m: Tree) {
    forall k :: k in m ==> m[k].hash == k && Attached(m, m[k])
  }

  /** The block and its ancestors, genesis first. The block itself need not be stored yet. */
  function Chain(m: Tree, b: Block): (r: seq<Block>)
    requires WellFormed(m) && Attached(m, b)
    ensures |r| == b.height + 1 && r[b.height] == b
    decreases b.height
  {
    if b.height == 0 then [b] else Chain(m, m[b.prevHash]) + [b]
  }

  /** The ancestors of a block without the block. */
  function Ancestors(m: Tree, b: Block): (r: seq<Block>)
    requires WellFormed(m) && Attached(m, b)
    ensures |r| == b.height && Chain(m, b) == r + [b]
  {
    if b.height == 0 then [] else Chain(m, m[b.prevHash])
  }

  lemma {:induction false} ChainAt(m: Tree, b: Block, i: nat)
    requires WellFormed(m) && Attached(m, b) && i <= b.height
    ensures
      var a := Chain(m, b)[i];
      && a.height == i && Attached(m, a)
      && Chain(m, a) == Chain(m, b)[..i + 1]
      && (i < b.height ==> a.hash in m && m[a.hash] == a)
      && (0 < i ==> a.prevHash == Chain(m, b)[i - 1].hash)
    decreases b.height
  {
    if i < b.height {
      var p := m[b.prevHash];
      ChainAt(m, p, i);
      assert Chain(m, b)[i] == Chain(m, p)[i];
      assert Chain(m, b)[..i + 1] == Chain(m, p)[..i + 1];
    } else {
      assert Chain(m, b)[..i + 1] == Chain(m, b);
      if 0 < i { assert Chain(m, b)[i - 1] == m[b.prevHash]; }
    }
  }

  /** Every block of `chain` is stored, and its parent link leads to the block below. */
  ghost predicate Stored(m: Tree, chain: seq<Block>) {
    forall i :: 0 <= i < |chain| ==> StoredAt(m, chain, i)
  }

  ghost predicate StoredAt(m: Tree, chain: seq<Block>, i: nat)
    requires i < |chain|
  {
    && chain[i].height == i && chain[i].hash in m && m[chain[i].hash] == chain[i]
    && (0 < i ==>
          chain[i].prevHash == chain[i - 1].hash && chain[i].prevHash in m && m[chain[i].prevHash] == chain[i - 1])
  }

  lemma StoredHeights(m: Tree, chain: seq<Block>)
    requires Stored(m, chain)
    ensures forall i :: 0 <= i < |chain| ==> chain[i].height == i
  {
    forall i | 0 <= i < |chain| ensures chain[i].height == i { assert StoredAt(m, chain, i); }
  }

  lemma AncestorsStored(m: Tree, b: Block)
    requires WellFormed(m) && Attached(m, b)
    ensures Stored(m, Ancestors(m, b))
    ensures b.height > 0 ==> Ancestors(m, b)[b.height - 1] == m[b.prevHash]
  {
    var chain := Ancestors(m, b);
    forall i | 0 <= i < |chain| ensures StoredAt(m, chain, i) {
      ChainAt(m, b, i);
      assert Chain(m, b)[i] == chain[i];
      if 0 < i { ChainAt(m, b, i - 1); assert Chain(m, b)[i - 1] == chain[i - 1]; }
    }
  }

  lemma {:induction false} ChainGrows(m: Tree, n: Tree, b: Block)
    requires WellFormed(m) && WellFormed(n) && Attached(m, b)
    requires forall k :: k in m ==> k in n && n[k] == m[k]
    ensures Attached(n, b) && Chain(n, b) == Chain(m, b)
    decreases b.height
  {
    if b.height > 0 { ChainGrows(m, n, m[b.prevHash]); }
  }

  lemma TreeWith(m: Tree, b: Block)
    requires WellFormed(m) && b.hash !in m && Attached(m, b)
    ensures WellFormed(m[b.hash := b]) && Attached(m[b.hash := b], b)
    ensures Chain(m[b.hash := b], b) == Ancestors(m, b) + [b]
    ensures forall k :: k in m ==> Chain(m[b.hash := b], m[k]) == Chain(m, m[k])
  {
    var n := m[b.hash := b];
    assert WellFormed(n);
    ChainGrows(m, n, b);
    forall k | k in m ensures Chain(n, m[k]) == Chain(m, m[k]) { ChainGrows(m, n, m[k]); }
  }

  lemma {:induction false} NotOnChain(m: Tree, p: Block, b: Block)
    requires WellFormed(m) && p.hash in m && m[p.hash] == p && b.hash !in m
    ensures forall i :: 0 <= i < |Chain(m, p)| ==> Chain(m, p)[i].hash != b.hash
  {
    forall i | 0 <= i < |Chain(m, p)| ensures Chain(m, p)[i].hash != b.hash { ChainAt(m, p, i); }
  }

  lemma {:induction false} StoredWith(m: Tree, b: Block)
    requires WellFormed(m) && b.hash !in m && Attached(m, b)
    ensures Stored(m[b.hash := b], Chain(m, b))
  {
    AncestorsStored(m, b);
    var below, n := Ancestors(m, b), m[b.hash := b];
    forall i | 0 <= i < |below + [b]| ensures StoredAt(n, below + [b], i) {
      if i < b.height {
        assert StoredAt(m, below, i);
      } else if 0 < i {
        assert StoredAt(m, below, i - 1);
      }
    }
  }

  lemma {:induction false} ChainStored(m: Tree, b: Block)
    requires WellFormed(m) && b.hash in m && m[b.hash] == b
    ensures Stored(m, Chain(m, b))
  {
    AncestorsStored(m, b);
    var below := Ancestors(m, b);
    forall i | 0 <= i < |below + [b]| ensures StoredAt(m, below + [b], i) {
      if i < b.height {
        assert StoredAt(m, below, i);
      }
    }
  }

  /** A block that hashes to a stored key is the stored block. */
  predicate Known(m: Tree, b: Block) {
    b.hash in m ==> m[b.hash] == b
  }

  /** `fork` is the last height at which the two chains agree; above it they have no block in
      common at any height. -1 says they share nothing. */
  ghost predicate IsFork(a: seq<Block>, b: seq<Block>, fork: int) {
    && -1 <= fork < |a| && fork < |b|
    && a[..fork + 1] == b[..fork + 1]
    && forall i :: fork < i < |a| && i < |b| ==> a[i].hash != b[i].hash
  }

  lemma AgreesBelow(a: seq<Block>, b: seq<Block>, fork: int, i: nat)
    requires IsFork(a, b, fork) && i <= fork
    ensures a[i] == b[i]
  {
    assert a[i] == a[..fork + 1][i] && b[i] == b[..fork + 1][i];
  }

  lemma ForkUnique(a: seq<Block>, b: seq<Block>, x: int, y: int)
    requires IsFork(a, b, x) && IsFork(a, b, y)
    ensures x == y
  {
    if x < y { AgreesBelow(a, b, y, x + 1); }
    if y < x { AgreesBelow(a, b, x, y + 1); }
  }

  /** A block on top of the longer chain, or one on top of each of two chains of the same length, leaves the fork. */
  lemma ForkAbove(a: seq<Block>, b: seq<Block>, x: Block, fork: int)
    requires IsFork(a, b, fork) && |b| <= |a|
    ensures IsFork(a + [x], b, fork) && IsFork(b, a + [x], fork)
  {
    assert (a + [x])[..fork + 1] == a[..fork + 1];
  }

  lemma ForkAboveBoth(a: seq<Block>, b: seq<Block>, x: Block, y: Block, fork: int)
    requires IsFork(a, b, fork) && |a| == |b| && x.hash != y.hash
    ensures IsFork(a + [x], b + [y], fork)
  {
    assert (a + [x])[..fork + 1] == a[..fork + 1] && (b + [y])[..fork + 1] == b[..fork + 1];
  }

  lemma {:induction false} ForkExists(m: Tree, x: Block, y: Block) returns (fork: int)
    requires WellFormed(m) && x.hash in m && m[x.hash] == x && y.hash in m && m[y.hash] == y
    ensures IsFork(Chain(m, x), Chain(m, y), fork) && IsFork(Chain(m, y), Chain(m, x), fork)
    decreases x.height + y.height
  {
    if x == y {
      fork := x.height;
    } else if x.height == 0 && y.height == 0 {
      fork := -1;
    } else if x.height > y.height {
      fork := ForkExists(m, m[x.prevHash], y);
      ForkAbove(Chain(m, m[x.prevHash]), Chain(m, y), x, fork);
    } else if x.height < y.height {
      fork := ForkExists(m, x, m[y.prevHash]);
      ForkAbove(Chain(m, m[y.prevHash]), Chain(m, x), y, fork);
    } else {
      fork := ForkExists(m, m[x.prevHash], m[y.prevHash]);
      ForkAboveBoth(Chain(m, m[x.prevHash]), Chain(m, m[y.prevHash]), x, y, fork);
      ForkAboveBoth(Chain(m, m[y.prevHash]), Chain(m, m[x.prevHash]), y, x, fork);
    }
  }

  /** Adding a block that is on neither chain leaves the fork where it was. */
  lemma ForkWithChild(a: seq<Block>, b: seq<Block>, c: Block, fork: int)
    requires IsFork(a, b, fork)
    requires forall i :: 0 <= i < |a| ==> a[i].hash != c.hash
    ensures IsFork(a, b + [c], fork)
  {
    assert (b + [c])[..fork + 1] == b[..fork + 1];
  }

  /** `x` is the ancestor of `top` at its height. */
  ghost predicate OnChain(m: Tree, top: Block, x: Block)
    requires WellFormed(m) && Attached(m, top)
  {
    x.height <= top.height && Chain(m, top)[x.height] == x
  }

  lemma Parent(m: Tree, top: Block, x: Block)
    requires WellFormed(m) && Attached(m, top) && OnChain(m, top, x) && x.height > 0
    ensures Attached(m, x) && OnChain(m, top, m[x.prevHash]) && Known(m, m[x.prevHash])
  {
    ChainAt(m, top, x.height);
    ChainAt(m, top, x.height - 1);
  }

  /** Above the lower of the two heights the chains differ. */
  ghost predicate Apart(a: seq<Block>, b: seq<Block>, x: nat, y: nat) {
    forall i :: 0 <= i < |a| && i < |b| && (i > x || i > y) ==> a[i].hash != b[i].hash
  }

  lemma {:induction false} Meeting(m: Tree, top1: Block, top2: Block, x: Block, y: Block)
    requires WellFormed(m) && Attached(m, top1) && Attached(m, top2)
    requires Known(m, top1) && Known(m, top2) && (top1.hash == top2.hash ==> top1 == top2)
    requires OnChain(m, top1, x) && OnChain(m, top2, y) && x.height == y.height
    requires Apart(Chain(m, top1), Chain(m, top2), x.height, y.height)
    ensures x.hash == y.hash ==> x == y && IsFork(Chain(m, top1), Chain(m, top2), x.height)
    ensures x.hash != y.hash && x.height == 0 ==> IsFork(Chain(m, top1), Chain(m, top2), -1)
  {
    ChainAt(m, top1, x.height);
    ChainAt(m, top2, y.height);
  }

  /** Walks the two blocks back, the higher one first, until they meet. */
  method FindForkPoint(m: Tree, block1: Block, block2: Block) returns (fork: int)
    requires WellFormed(m) && Attached(m, block1) && Attached(m, block2)
    requires Known(m, block1) && Known(m, block2) && (block1.hash == block2.hash ==> block1 == block2)
    ensures IsFork(Chain(m, block1), Chain(m, block2), fork)
  {
    var x, y := block1, block2;
    ghost var a, b := Chain(m, block1), Chain(m, block2);
    while y.height > 0 || x.height > 0
      invariant OnChain(m, block1, x) && OnChain(m, block2, y) && Apart(a, b, x.height, y.height)
      decreases x.height + y.height
    {
      if y.height > x.height {
        Parent(m, block2, y);
        y := m[y.prevHash];
      } else if x.height > y.height {
        Parent(m, block1, x);
        x := m[x.prevHash];
      } else {
        Meeting(m, block1, block2, x, y);
        if y.hash == x.hash {
          return y.height;
        }
        Parent(m, block2, y);
        Parent(m, block1, x);
        y := m[y.prevHash];
        x := m[x.prevHash];
      }
    }
    Meeting(m, block1, block2, x, y);
    if y != x {
      return -1;
    }
    return 0;
  }
}
