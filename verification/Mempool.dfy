/** The pool of pending transactions: four indexes over the same items, and eviction in order of
    increasing fee per cost. */
module Mempool {
  import opened Ledger

  type Name = nat
  type CoinId = nat

  /** `rate` is the item's fee per cost, as the floating point number the code computes once and
      compares with. */
  datatype Item = Item(name: Name, cost: nat, rate: real, additions: seq<CoinId>, removals: seq<CoinId>)

  /** One entry of the sorted dictionary: the items of one rate in order of arrival. */
  datatype Bucket = Bucket(rate: real, items: seq<Item>)

  // ---- the simple form: one queue, cheapest first ----

  function Cost(q: seq<Item>): nat {
    if q == [] then 0 else q[0].cost + Cost(q[1..])
  }

  function Without(q: seq<Item>, it: Item): seq<Item> {
    if q == [] then [] else if q[0] == it then q[1..] else [q[0]] + Without(q[1..], it)
  }

  /** Behind every item whose rate is not higher. */
  function Insert(q: seq<Item>, it: Item): seq<Item> {
    if q == [] || it.rate < q[0].rate then [it] + q else [q[0]] + Insert(q[1..], it)
  }

  /** How many items have to go before `cost` fits; all of them if it never fits. */
  function Evicted(q: seq<Item>, cost: nat, max: nat): (k: nat)
    ensures k <= |q|
  {
    if Cost(q) + cost <= max || q == [] then 0 else 1 + Evicted(q[1..], cost, max)
  }

  /** It is the smallest number that makes room, and room can be made unless the item is too large. */
  lemma {:induction false} EvictedLeast(q: seq<Item>, cost: nat, max: nat)
    ensures var k := Evicted(q, cost, max);
      && k <= |q| && (Cost(q[k..]) + cost <= max <==> cost <= max)
      && forall j :: 0 <= j < k ==> Cost(q[j..]) + cost > max
  {
    assert q[0..] == q;
    if Cost(q) + cost > max && q != [] {
      EvictedLeast(q[1..], cost, max);
      var k := Evicted(q, cost, max);
      assert q[k..] == q[1..][k - 1..];
      forall j | 0 <= j < k ensures Cost(q[j..]) + cost > max {
        if j > 0 { assert q[j..] == q[1..][j - 1..]; }
      }
    }
  }

  lemma {:induction false} CostWithout(q: seq<Item>, it: Item)
    requires it in q
    ensures Cost(Without(q, it)) == Cost(q) - it.cost
  {
    if q[0] != it {
      CostWithout(q[1..], it);
      assert Without(q, it)[1..] == Without(q[1..], it);
    }
  }

  lemma {:induction false} CostInsert(q: seq<Item>, it: Item)
    ensures Cost(Insert(q, it)) == Cost(q) + it.cost
  {
    if q == [] || it.rate < q[0].rate {
      assert ([it] + q)[1..] == q;
    } else {
      CostInsert(q[1..], it);
      assert Insert(q, it)[1..] == Insert(q[1..], it);
    }
  }

  lemma {:induction false} InsertBetween(a: seq<Item>, b: seq<Item>, it: Item)
    requires forall i :: 0 <= i < |a| ==> a[i].rate <= it.rate
    requires b == [] || it.rate < b[0].rate
    ensures Insert(a + b, it) == a + [it] + b
  {
    if a == [] {
      assert a + b == b;
    } else {
      InsertBetween(a[1..], b, it);
      assert (a + b)[1..] == a[1..] + b;
    }
  }

  lemma {:induction false} WithoutAt(q: seq<Item>, p: nat)
    requires p < |q| && forall i, j :: 0 <= i < j < |q| ==> q[i].name != q[j].name
    ensures Without(q, q[p]) == q[..p] + q[p + 1..]
  {
    if p > 0 {
      assert q[0].name != q[p].name;
      WithoutAt(q[1..], p - 1);
      assert q[1..][..p - 1] == q[1..p] && q[1..][p..] == q[p + 1..];
    }
  }

  // ---- the buckets ----

  function Flatten(bs: seq<Bucket>): seq<Item> {
    if bs == [] then [] else bs[0].items + Flatten(bs[1..])
  }

  ghost predicate Sorted(bs: seq<Bucket>) {
    && (forall i :: 0 <= i < |bs| ==> OneRate(bs[i]))
    && (forall i, j :: 0 <= i < j < |bs| ==> bs[i].rate < bs[j].rate)
  }

  ghost predicate OneRate(b: Bucket) {
    b.items != [] && forall j :: 0 <= j < |b.items| ==> b.items[j].rate == b.rate
  }

  lemma Append3(a: seq<Item>, b: seq<Item>, c: seq<Item>)
    ensures a + (b + c) == a + b + c
  {
  }

  lemma {:induction false} FlattenAppend(a: seq<Bucket>, b: seq<Bucket>)
    ensures Flatten(a + b) == Flatten(a) + Flatten(b)
  {
    if a == [] {
      assert a + b == b;
      assert [] + Flatten(b) == Flatten(b);
    } else {
      FlattenAppend(a[1..], b);
      assert (a + b)[1..] == a[1..] + b && (a + b)[0] == a[0];
      Append3(a[0].items, Flatten(a[1..]), Flatten(b));
    }
  }

  lemma {:induction false} FlattenAround(a: seq<Bucket>, x: Bucket, b: seq<Bucket>)
    ensures Flatten(a + [x] + b) == Flatten(a) + x.items + Flatten(b)
  {
    FlattenAppend(a, [x] + b);
    assert a + [x] + b == a + ([x] + b) && ([x] + b)[1..] == b;
    Append3(Flatten(a), x.items, Flatten(b));
  }

  lemma {:induction false} FlattenRates(bs: seq<Bucket>, low: real, high: real)
    requires Sorted(bs) && forall i :: 0 <= i < |bs| ==> low <= bs[i].rate <= high
    ensures forall i :: 0 <= i < |Flatten(bs)| ==> low <= Flatten(bs)[i].rate <= high
  {
    if bs != [] { FlattenRates(bs[1..], low, high); }
  }

  lemma {:induction false} FlattenIncreasing(bs: seq<Bucket>)
    requires Sorted(bs)
    ensures forall i, j :: 0 <= i < j < |Flatten(bs)| ==> Flatten(bs)[i].rate <= Flatten(bs)[j].rate
  {
    if bs != [] {
      var rest := bs[1..];
      FlattenIncreasing(rest);
      if rest != [] { FlattenRates(rest, bs[0].rate, rest[|rest| - 1].rate); }
    }
  }

  // ---- the indexes ----

  datatype Index = ByName | ByAddition | ByRemoval

  function KeysOf(kind: Index, it: Item): seq<nat> {
    match kind
    case ByName => [it.name]
    case ByAddition => it.additions
    case ByRemoval => it.removals
  }

  /** The dictionary has one entry for each key of each item and no other. In particular no two
      items share a key. */
  ghost predicate IndexOk(items: set<Item>, m: map<nat, Item>, kind: Index) {
    && (forall it, c :: it in items && c in KeysOf(kind, it) ==> c in m && m[c] == it)
    && (forall c :: c in m ==> m[c] in items && c in KeysOf(kind, m[c]))
  }

  ghost predicate WellMade(it: Item) { Distinct(it.additions) && Distinct(it.removals) }

  /** The queue has no name twice, and the three dictionaries hold exactly its items. */
  ghost predicate Agree(q: seq<Item>, spends: map<Name, Item>, additions: map<CoinId, Item>,
                        removals: map<CoinId, Item>) {
    && (forall i, j :: 0 <= i < j < |q| ==> q[i].name != q[j].name)
    && (forall it :: it in Elements(q) ==> WellMade(it))
    && IndexOk(Elements(q), spends, ByName)
    && IndexOk(Elements(q), additions, ByAddition)
    && IndexOk(Elements(q), removals, ByRemoval)
  }

  function Drop(m: map<nat, Item>, keys: seq<nat>): map<nat, Item> {
    map k | k in m && k !in keys :: m[k]
  }

  function With(m: map<nat, Item>, keys: seq<nat>, it: Item): map<nat, Item> {
    map k | k in m.Keys + Elements(keys) :: if k in keys then it else m[k]
  }

  /** Deletes the entries one by one; none is missing. */
  method DeleteAll(m: map<CoinId, Item>, keys: seq<CoinId>) returns (r: map<CoinId, Item>)
    requires Distinct(keys) && forall c :: c in keys ==> c in m
    ensures r == Drop(m, keys)
  {
    r := m;
    for i := 0 to |keys|
      invariant r == Drop(m, keys[..i])
    {
      assert keys[i] !in keys[..i] && keys[i] in r;
      r := r - {keys[i]};
      assert keys[..i + 1] == keys[..i] + [keys[i]];
    }
    assert keys[..|keys|] == keys;
  }

  method AssignAll(m: map<CoinId, Item>, keys: seq<CoinId>, it: Item) returns (r: map<CoinId, Item>)
    ensures r == With(m, keys, it)
  {
    r := m;
    for i := 0 to |keys|
      invariant r == With(m, keys[..i], it)
    {
      r := r[keys[i] := it];
      assert keys[..i + 1] == keys[..i] + [keys[i]];
    }
    assert keys[..|keys|] == keys;
  }

  lemma IndexWithout(items: set<Item>, m: map<nat, Item>, kind: Index, it: Item)
    requires it in items && IndexOk(items, m, kind)
    ensures IndexOk(items - {it}, Drop(m, KeysOf(kind, it)), kind)
  {
    var d := Drop(m, KeysOf(kind, it));
    forall x, c | x in items - {it} && c in KeysOf(kind, x) ensures c in d && d[c] == x {
      assert c in m && m[c] == x;
    }
  }

  lemma IndexWith(items: set<Item>, m: map<nat, Item>, kind: Index, it: Item)
    requires IndexOk(items, m, kind) && forall c :: c in KeysOf(kind, it) ==> c !in m
    ensures IndexOk(items + {it}, With(m, KeysOf(kind, it), it), kind)
  {
  }

  lemma ElementsWithout(q: seq<Item>, p: nat)
    requires p < |q| && forall i, j :: 0 <= i < j < |q| ==> q[i].name != q[j].name
    ensures Elements(q[..p] + q[p + 1..]) == Elements(q) - {q[p]}
    ensures var r := q[..p] + q[p + 1..]; forall i, j :: 0 <= i < j < |r| ==> r[i].name != r[j].name
  {
    var r := q[..p] + q[p + 1..];
    assert forall i :: 0 <= i < |r| ==> r[i] == q[if i < p then i else i + 1];
    forall x | x in q && x != q[p] ensures x in r {
      var i :| 0 <= i < |q| && q[i] == x;
      assert r[if i < p then i else i - 1] == x;
    }
  }

  lemma AgreeWithout(q: seq<Item>, p: nat, spends: map<Name, Item>, additions: map<CoinId, Item>,
                     removals: map<CoinId, Item>)
    requires p < |q| && Agree(q, spends, additions, removals)
    ensures Agree(q[..p] + q[p + 1..], Drop(spends, [q[p].name]), Drop(additions, q[p].additions),
                  Drop(removals, q[p].removals))
  {
    ElementsWithout(q, p);
    IndexWithout(Elements(q), spends, ByName, q[p]);
    IndexWithout(Elements(q), additions, ByAddition, q[p]);
    IndexWithout(Elements(q), removals, ByRemoval, q[p]);
  }

  /** None of the item's coins is created or spent by an item of the pool. */
  ghost predicate Separate(it: Item, spends: map<Name, Item>, additions: map<CoinId, Item>,
                           removals: map<CoinId, Item>) {
    && it.name !in spends && WellMade(it)
    && (forall c :: c in it.additions ==> c !in additions)
    && (forall c :: c in it.removals ==> c !in removals)
  }

  lemma SeparateKept(it: Item, spends: map<Name, Item>, additions: map<CoinId, Item>, removals: map<CoinId, Item>,
                     gone: Item)
    requires Separate(it, spends, additions, removals)
    ensures Separate(it, Drop(spends, [gone.name]), Drop(additions, gone.additions), Drop(removals, gone.removals))
  {
  }

  lemma ElementsWith(a: seq<Item>, b: seq<Item>, it: Item)
    requires var q := a + b; forall i, j :: 0 <= i < j < |q| ==> q[i].name != q[j].name
    requires forall i :: 0 <= i < |a + b| ==> (a + b)[i].name != it.name
    ensures Elements(a + [it] + b) == Elements(a + b) + {it}
    ensures var r := a + [it] + b; forall i, j :: 0 <= i < j < |r| ==> r[i].name != r[j].name
  {
    var q, r := a + b, a + [it] + b;
    assert forall i :: 0 <= i < |r| && i != |a| ==> r[i] == q[if i < |a| then i else i - 1];
    assert r[|a|] == it;
    forall x | x in q ensures x in r {
      var i :| 0 <= i < |q| && q[i] == x;
      assert r[if i < |a| then i else i + 1] == x;
    }
  }

  lemma AgreeWith(a: seq<Item>, b: seq<Item>, it: Item, spends: map<Name, Item>, additions: map<CoinId, Item>,
                  removals: map<CoinId, Item>)
    requires Agree(a + b, spends, additions, removals) && Separate(it, spends, additions, removals)
    ensures Agree(a + [it] + b, spends[it.name := it], With(additions, it.additions, it),
                  With(removals, it.removals, it))
  {
    forall i | 0 <= i < |a + b| ensures (a + b)[i].name != it.name {
      var x := (a + b)[i];
      assert x in Elements(a + b) && x.name in KeysOf(ByName, x);
    }
    ElementsWith(a, b, it);
    IndexWith(Elements(a + b), spends, ByName, it);
    IndexWith(Elements(a + b), additions, ByAddition, it);
    IndexWith(Elements(a + b), removals, ByRemoval, it);
    assert With(spends, [it.name], it) == spends[it.name := it];
  }

  // ---- changing one bucket ----

  function RemoveAt(bs: seq<Bucket>, i: nat, j: nat): seq<Bucket>
    requires i < |bs| && j < |bs[i].items|
  {
    var items := bs[i].items[..j] + bs[i].items[j + 1..];
    if items == [] then bs[..i] + bs[i + 1..] else bs[..i] + [Bucket(bs[i].rate, items)] + bs[i + 1..]
  }

  lemma CutMiddle(a: seq<Item>, l: seq<Item>, x: Item, r: seq<Item>, b: seq<Item>)
    ensures var q := a + (l + [x] + r) + b; var p := |a| + |l|;
      p < |q| && q[p] == x && q[..p] + q[p + 1..] == a + (l + r) + b
  {
  }

  lemma RemoveAtFlat(bs: seq<Bucket>, i: nat, j: nat) returns (p: nat)
    requires i < |bs| && j < |bs[i].items|
    ensures p < |Flatten(bs)| && Flatten(bs)[p] == bs[i].items[j]
    ensures Flatten(RemoveAt(bs, i, j)) == Flatten(bs)[..p] + Flatten(bs)[p + 1..]
  {
    var a, x, b := bs[..i], bs[i], bs[i + 1..];
    var l, r := x.items[..j], x.items[j + 1..];
    p := |Flatten(a)| + j;
    assert bs == a + [x] + b && x.items == l + [x.items[j]] + r;
    FlattenAround(a, x, b);
    CutMiddle(Flatten(a), l, x.items[j], r, Flatten(b));
    if l + r == [] {
      FlattenAppend(a, b);
    } else {
      FlattenAround(a, Bucket(x.rate, l + r), b);
    }
  }

  lemma RemoveAtSorted(bs: seq<Bucket>, i: nat, j: nat)
    requires Sorted(bs) && i < |bs| && j < |bs[i].items|
    ensures Sorted(RemoveAt(bs, i, j))
  {
    var r := RemoveAt(bs, i, j);
    if |r| == |bs| {
      assert forall k :: 0 <= k < |r| && k != i ==> r[k] == bs[k];
    } else {
      assert forall k :: 0 <= k < |r| ==> r[k] == bs[if k < i then k else k + 1];
    }
  }

  /** The item goes to the end of the bucket of its rate, which is made if need be. */
  function AddAt(bs: seq<Bucket>, i: nat, it: Item): seq<Bucket>
    requires i <= |bs|
  {
    if i < |bs| && bs[i].rate == it.rate then bs[..i] + [Bucket(it.rate, bs[i].items + [it])] + bs[i + 1..]
    else bs[..i] + [Bucket(it.rate, [it])] + bs[i..]
  }

  /** The first bucket whose rate is not lower. */
  ghost predicate FirstNotBelow(bs: seq<Bucket>, rate: real, i: nat) {
    i <= |bs| && (forall k :: 0 <= k < i ==> bs[k].rate < rate) && (i < |bs| ==> rate <= bs[i].rate)
  }

  lemma SortedAround(a: seq<Bucket>, x: Bucket, b: seq<Bucket>)
    requires Sorted(a) && Sorted(b) && OneRate(x)
    requires forall i :: 0 <= i < |a| ==> a[i].rate < x.rate
    requires forall i :: 0 <= i < |b| ==> x.rate < b[i].rate
    ensures Sorted(a + [x] + b)
  {
  }

  lemma AddAtSorted(bs: seq<Bucket>, i: nat, it: Item)
    requires Sorted(bs) && FirstNotBelow(bs, it.rate, i)
    ensures Sorted(AddAt(bs, i, it))
  {
    if i < |bs| && bs[i].rate == it.rate {
      SortedAround(bs[..i], Bucket(it.rate, bs[i].items + [it]), bs[i + 1..]);
    } else {
      SortedAround(bs[..i], Bucket(it.rate, [it]), bs[i..]);
    }
  }

  lemma {:induction false} FlattenFirst(bs: seq<Bucket>)
    requires Sorted(bs) && bs != []
    ensures Flatten(bs) != [] && Flatten(bs)[0].rate == bs[0].rate
  {
    assert OneRate(bs[0]);
  }

  /** The item belongs right behind the bucket of its own rate. */
  lemma {:induction false} InsertBehind(a: seq<Bucket>, x: Bucket, b: seq<Bucket>, it: Item)
    requires Sorted(a) && Sorted(b) && OneRate(x) && x.rate == it.rate
    requires forall i :: 0 <= i < |a| ==> a[i].rate < it.rate
    requires b != [] ==> it.rate < b[0].rate
    ensures Insert(Flatten(a) + x.items + Flatten(b), it) == Flatten(a) + x.items + [it] + Flatten(b)
  {
    if a != [] { FlattenRates(a, a[0].rate, it.rate); }
    if b != [] { FlattenFirst(b); }
    InsertBetween(Flatten(a) + x.items, Flatten(b), it);
  }

  lemma {:induction false} JoinExisting(a: seq<Bucket>, x: Bucket, b: seq<Bucket>, it: Item)
    requires Sorted(a) && Sorted(b) && OneRate(x) && x.rate == it.rate
    requires forall i :: 0 <= i < |a| ==> a[i].rate < it.rate
    requires b != [] ==> it.rate < b[0].rate
    ensures Flatten(a + [Bucket(it.rate, x.items + [it])] + b) == Flatten(a) + x.items + [it] + Flatten(b)
    ensures Flatten(a + [x] + b) == Flatten(a) + x.items + Flatten(b)
    ensures Insert(Flatten(a) + x.items + Flatten(b), it) == Flatten(a) + x.items + [it] + Flatten(b)
  {
    FlattenAround(a, x, b);
    FlattenAround(a, Bucket(it.rate, x.items + [it]), b);
    Append3(Flatten(a), x.items, [it]);
    InsertBehind(a, x, b, it);
  }

  lemma {:induction false} JoinNew(a: seq<Bucket>, b: seq<Bucket>, it: Item)
    requires Sorted(a) && Sorted(b)
    requires forall i :: 0 <= i < |a| ==> a[i].rate < it.rate
    requires b != [] ==> it.rate < b[0].rate
    ensures Flatten(a + [Bucket(it.rate, [it])] + b) == Flatten(a) + [it] + Flatten(b)
    ensures Insert(Flatten(a + b), it) == Flatten(a) + [it] + Flatten(b) && Flatten(a + b) == Flatten(a) + Flatten(b)
  {
    FlattenAround(a, Bucket(it.rate, [it]), b);
    FlattenAppend(a, b);
    if a != [] { FlattenRates(a, a[0].rate, it.rate); }
    if b != [] { FlattenFirst(b); }
    InsertBetween(Flatten(a), Flatten(b), it);
  }

  /** Where the item comes to stand in the queue. */
  lemma AddAtFlat(bs: seq<Bucket>, i: nat, it: Item) returns (a: seq<Item>, b: seq<Item>)
    requires Sorted(bs) && FirstNotBelow(bs, it.rate, i)
    ensures Flatten(bs) == a + b && Flatten(AddAt(bs, i, it)) == a + [it] + b == Insert(Flatten(bs), it)
  {
    if i < |bs| && bs[i].rate == it.rate {
      assert bs == bs[..i] + [bs[i]] + bs[i + 1..];
      JoinExisting(bs[..i], bs[i], bs[i + 1..], it);
      a, b := Flatten(bs[..i]) + bs[i].items, Flatten(bs[i + 1..]);
    } else {
      assert bs == bs[..i] + bs[i..];
      JoinNew(bs[..i], bs[i..], it);
      a, b := Flatten(bs[..i]), Flatten(bs[i..]);
    }
  }

  method FindRate(bs: seq<Bucket>, rate: real) returns (i: nat)
    ensures FirstNotBelow(bs, rate, i)
  {
    i := 0;
    while i < |bs| && bs[i].rate < rate
      invariant i <= |bs| && forall k :: 0 <= k < i ==> bs[k].rate < rate
    {
      i := i + 1;
    }
  }

  lemma {:induction false} BucketOf(bs: seq<Bucket>, it: Item) returns (k: nat)
    requires it in Flatten(bs)
    ensures k < |bs| && it in bs[k].items
  {
    if it in bs[0].items {
      k := 0;
    } else {
      var rest := BucketOf(bs[1..], it);
      k := rest + 1;
    }
  }

  /** Rates of different buckets differ, so the first one not below an item's rate is the item's. */
  lemma RateBucket(bs: seq<Bucket>, i: nat, k: nat, it: Item)
    requires Sorted(bs) && FirstNotBelow(bs, it.rate, i) && k < |bs| && it in bs[k].items
    ensures i == k
  {
    assert OneRate(bs[k]);
  }

  method FindItem(items: seq<Item>, it: Item) returns (j: nat)
    requires it in items
    ensures j < |items| && items[j] == it
  {
    j := 0;
    while items[j] != it
      invariant j < |items| && it in items[j..]
      decreases |items| - j
    {
      j := j + 1;
    }
  }

  method Locate(bs: seq<Bucket>, it: Item) returns (i: nat, j: nat)
    requires Sorted(bs) && it in Flatten(bs)
    ensures i < |bs| && j < |bs[i].items| && bs[i].items[j] == it
  {
    i := FindRate(bs, it.rate);
    ghost var k := BucketOf(bs, it);
    RateBucket(bs, i, k, it);
    j := FindItem(bs[i].items, it);
  }

  lemma KeysPresent(q: seq<Item>, it: Item, spends: map<Name, Item>, additions: map<CoinId, Item>,
                    removals: map<CoinId, Item>)
    requires Agree(q, spends, additions, removals) && it.name in spends && spends[it.name] == it
    ensures it in q && WellMade(it)
    ensures forall c :: c in it.additions ==> c in additions
    ensures forall c :: c in it.removals ==> c in removals
  {
    assert it in Elements(q);
    assert forall c :: c in it.additions ==> c in KeysOf(ByAddition, it);
    assert forall c :: c in it.removals ==> c in KeysOf(ByRemoval, it);
  }

  /** The four indexes hold the same items, the total is the sum of their costs, and it is within
      the limit. */
  ghost predicate PoolOk(bs: seq<Bucket>, spends: map<Name, Item>, additions: map<CoinId, Item>,
                         removals: map<CoinId, Item>, total: int, max: nat) {
    Sorted(bs) && Agree(Flatten(bs), spends, additions, removals) && total == Cost(Flatten(bs)) <= max
  }

  lemma {:induction false} TakeOut(bs: seq<Bucket>, i: nat, j: nat, it: Item,
                spends: map<Name, Item>, additions: map<CoinId, Item>, removals: map<CoinId, Item>,
                total: int, max: nat)
    requires PoolOk(bs, spends, additions, removals, total, max) && i < |bs| && j < |bs[i].items| &&
      bs[i].items[j] == it
    ensures PoolOk(RemoveAt(bs, i, j), Drop(spends, [it.name]), Drop(additions, it.additions),
                   Drop(removals, it.removals), total - it.cost, max)
    ensures Flatten(RemoveAt(bs, i, j)) == Without(Flatten(bs), it)
  {
    var q := Flatten(bs);
    var p := RemoveAtFlat(bs, i, j);
    RemoveAtSorted(bs, i, j);
    AgreeWithout(q, p, spends, additions, removals);
    WithoutAt(q, p);
    CostWithout(q, q[p]);
  }

  lemma {:induction false} PutIn(bs: seq<Bucket>, i: nat, it: Item,
              spends: map<Name, Item>, additions: map<CoinId, Item>, removals: map<CoinId, Item>, total: int, max: nat)
    requires PoolOk(bs, spends, additions, removals, total, max) && FirstNotBelow(bs, it.rate, i)
    requires Separate(it, spends, additions, removals) && total + it.cost <= max
    ensures PoolOk(AddAt(bs, i, it), spends[it.name := it], With(additions, it.additions, it),
                   With(removals, it.removals, it),
                   total + it.cost, max)
    ensures Flatten(AddAt(bs, i, it)) == Insert(Flatten(bs), it)
  {
    AddAtSorted(bs, i, it);
    var a, b := AddAtFlat(bs, i, it);
    AgreeWith(a, b, it, spends, additions, removals);
    CostInsert(Flatten(bs), it);
  }

  // ---- eviction ----

  /** The first `p` items have gone and `cost` does not fit yet. */
  ghost predicate Scanned(q: seq<Item>, p: nat, cost: nat, max: nat, current: int) {
    && p <= |q| && current == Cost(q[p..]) && current + cost > max
    && Evicted(q, cost, max) == p + Evicted(q[p..], cost, max)
  }

  lemma {:induction false} ScanStart(q: seq<Item>, cost: nat, max: nat)
    ensures if Cost(q) + cost > max then Scanned(q, 0, cost, max, Cost(q)) else Evicted(q, cost, max) == 0
  {
    assert q[0..] == q;
  }

  lemma {:induction false} ScanNext(q: seq<Item>, p: nat, cost: nat, max: nat, current: int)
    requires Scanned(q, p, cost, max, current) && p < |q|
    ensures current - q[p].cost == Cost(q[p + 1..])
    ensures if current - q[p].cost + cost > max then Scanned(q, p + 1, cost, max, current - q[p].cost)
            else Evicted(q, cost, max) == p + 1
  {
    assert q[p..][1..] == q[p + 1..];
    assert Evicted(q[p..], cost, max) == 1 + Evicted(q[p + 1..], cost, max);
  }

  lemma {:induction false} ScanEnd(q: seq<Item>, cost: nat, max: nat, current: int)
    requires Scanned(q, |q|, cost, max, current)
    ensures cost > max && Evicted(q, cost, max) == |q|
  {
  }

  /** Subtracts the items of one bucket until `cost` fits. */
  method ScanBucket(items: seq<Item>, start: int, cost: nat, max: nat, ghost q: seq<Item>, ghost p: nat)
    returns (fits: bool, current: int)
    requires Scanned(q, p, cost, max, start) && items <= q[p..]
    ensures fits ==> cost <= max && p < Evicted(q, cost, max) <= |q| && q[Evicted(q, cost, max) - 1] in items
    ensures !fits ==> Scanned(q, p + |items|, cost, max, current)
  {
    current := start;
    for j := 0 to |items|
      invariant Scanned(q, p + j, cost, max, current)
    {
      assert q[p + j] == q[p..][j] == items[j];
      ScanNext(q, p + j, cost, max, current);
      current := current - items[j].cost;
      if current + cost <= max {
        return true, current;
      }
    }
    fits := false;
  }

  /** The position of the bucket's first item in the queue. */
  ghost function Offset(bs: seq<Bucket>, i: nat): nat
    requires i <= |bs|
  {
    |Flatten(bs[..i])|
  }

  lemma {:induction false} BucketAt(bs: seq<Bucket>, i: nat)
    requires i < |bs|
    ensures Offset(bs, i + 1) == Offset(bs, i) + |bs[i].items| <= |Flatten(bs)|
    ensures bs[i].items <= Flatten(bs)[Offset(bs, i)..]
  {
    assert bs == bs[..i] + [bs[i]] + bs[i + 1..];
    FlattenAround(bs[..i], bs[i], bs[i + 1..]);
    assert bs[..i + 1] == bs[..i] + [bs[i]] + [];
    FlattenAround(bs[..i], bs[i], []);
  }

  method ScanOne(bs: seq<Bucket>, i: nat, start: int, cost: nat, max: nat) returns (fits: bool, current: int)
    requires Sorted(bs) && i < |bs| && Scanned(Flatten(bs), Offset(bs, i), cost, max, start)
    ensures fits ==> cost <= max && MinRate(Flatten(bs), cost, max) == bs[i].rate
    ensures !fits ==> Scanned(Flatten(bs), Offset(bs, i + 1), cost, max, current)
  {
    BucketAt(bs, i);
    assert OneRate(bs[i]);
    fits, current := ScanBucket(bs[i].items, start, cost, max, Flatten(bs), Offset(bs, i));
  }

  /** The rate of the last item that has to go, 0 if none has to. */
  function MinRate(q: seq<Item>, cost: nat, max: nat): real {
    var k := Evicted(q, cost, max);
    if k == 0 then 0.0 else q[k - 1].rate
  }

  lemma {:induction false} ScanRange(bs: seq<Bucket>)
    ensures Offset(bs, 0) == 0 && Offset(bs, |bs|) == |Flatten(bs)|
  {
    assert bs[..|bs|] == bs;
  }

  method ScanBuckets(bs: seq<Bucket>, total: int, cost: nat, max: nat) returns (rate: Option<real>)
    requires Sorted(bs) && Scanned(Flatten(bs), 0, cost, max, total)
    ensures rate == if cost > max then None else Some(MinRate(Flatten(bs), cost, max))
  {
    var current := total;
    ScanRange(bs);
    for i := 0 to |bs|
      invariant Scanned(Flatten(bs), Offset(bs, i), cost, max, current)
    {
      var fits;
      fits, current := ScanOne(bs, i, current, cost, max);
      if fits {
        return Some(bs[i].rate);
      }
    }
    ScanEnd(Flatten(bs), cost, max, current);
    rate := None;
  }

  /** Everything that has to go for a new item pays at most the rate of the last one to go, and what
      stays pays at least that. So an item offering more than that rate only displaces cheaper ones. */
  lemma {:induction false} EvictedCheapest(bs: seq<Bucket>, cost: nat, max: nat)
    requires Sorted(bs) && Evicted(Flatten(bs), cost, max) > 0
    ensures var q := Flatten(bs); var k := Evicted(q, cost, max);
      && (forall j :: 0 <= j < k ==> q[j].rate <= q[k - 1].rate)
      && (forall j :: k <= j < |q| ==> q[k - 1].rate <= q[j].rate)
  {
    FlattenIncreasing(bs);
    EvictedLeast(Flatten(bs), cost, max);
  }

  class Mempool {
    var spends: map<Name, Item>
    var sorted: seq<Bucket>
    var additions: map<CoinId, Item>
    var removals: map<CoinId, Item>
    const maxCost: nat
    var totalCost: int

    ghost function Queue(): seq<Item>
      reads this
    {
      Flatten(sorted)
    }

    ghost predicate Valid()
      reads this
    {
      PoolOk(sorted, spends, additions, removals, totalCost, maxCost)
    }

    constructor (max: nat)
      ensures Valid() && Queue() == [] && maxCost == max
    {
      spends, sorted, additions, removals, totalCost := map[], [], map[], map[], 0;
      maxCost := max;
    }

    predicate AtFullCapacity(cost: nat)
      reads this
    {
      totalCost + cost > maxCost
    }

    /** Takes one item out of all four indexes; no deletion misses its key. */
    method RemoveFromPool(it: Item)
      requires Valid() && it.name in spends && spends[it.name] == it
      modifies this
      ensures Valid() && Queue() == Without(old(Queue()), it)
      ensures spends == Drop(old(spends), [it.name])
      ensures additions == Drop(old(additions), it.additions) && removals == Drop(old(removals), it.removals)
    {
      KeysPresent(Queue(), it, spends, additions, removals);
      var i, j := Locate(sorted, it);
      TakeOut(sorted, i, j, it, spends, additions, removals, totalCost, maxCost);
      removals := DeleteAll(removals, it.removals);
      additions := DeleteAll(additions, it.additions);
      spends := Drop(spends, [it.name]);
      sorted := RemoveAt(sorted, i, j);
      totalCost := totalCost - it.cost;
    }

    /** Evicts the shortest cheapest prefix of the queue that makes room, then inserts. An item larger
        than the whole pool empties it and is not inserted. */
    method AddToPool(it: Item) returns (ok: bool)
      requires Valid() && Separate(it, spends, additions, removals)
      modifies this
      ensures Valid() && (ok <==> it.cost <= maxCost)
      ensures Queue() == if ok then Insert(old(Queue())[Evicted(old(Queue()), it.cost, maxCost)..], it) else []
    {
      ok := MakeRoom(it);
      if ok { Include(it); }
    }

    method Include(it: Item)
      requires Valid() && Separate(it, spends, additions, removals) && !AtFullCapacity(it.cost)
      modifies this
      ensures Valid() && Queue() == Insert(old(Queue()), it)
    {
      var i := FindRate(sorted, it.rate);
      PutIn(sorted, i, it, spends, additions, removals, totalCost, maxCost);
      spends := spends[it.name := it];
      sorted := AddAt(sorted, i, it);
      additions := AssignAll(additions, it.additions, it);
      removals := AssignAll(removals, it.removals, it);
      totalCost := totalCost + it.cost;
    }

    method MakeRoom(it: Item) returns (ok: bool)
      requires Valid() && Separate(it, spends, additions, removals)
      modifies this
      ensures Valid() && Separate(it, spends, additions, removals) && (ok <==> it.cost <= maxCost)
      ensures Queue() == old(Queue())[Evicted(old(Queue()), it.cost, maxCost)..]
      ensures if ok then !AtFullCapacity(it.cost) else Queue() == []
    {
      ghost var q, n := Queue(), 0;
      ScanStart(q, it.cost, maxCost);
      while AtFullCapacity(it.cost)
        invariant Valid() && Separate(it, spends, additions, removals) && n <= |q|
        invariant EvictedSoFar(q, n, it.cost)
        decreases |q| - n
      {
        if |sorted| == 0 {
          ScanEnd(q, it.cost, maxCost, totalCost);
          return false;
        }
        EvictFirst(it, q, n);
        n := n + 1;
      }
      ok := true;
    }

    /** The first `n` items of `q` have gone; more have to exactly if `cost` does not fit yet. */
    ghost predicate EvictedSoFar(q: seq<Item>, n: nat, cost: nat)
      requires n <= |q|
      reads this
    {
      && Queue() == q[n..]
      && if AtFullCapacity(cost) then Scanned(q, n, cost, maxCost, totalCost) else Evicted(q, cost, maxCost) == n
    }

    method EvictFirst(it: Item, ghost q: seq<Item>, ghost n: nat)
      requires Valid() && Separate(it, spends, additions, removals) && sorted != [] && AtFullCapacity(it.cost)
      requires n <= |q| && EvictedSoFar(q, n, it.cost)
      modifies this
      ensures Valid() && Separate(it, spends, additions, removals)
      ensures n < |q| && EvictedSoFar(q, n + 1, it.cost)
    {
      var toRemove := FirstItem();
      ScanNext(q, n, it.cost, maxCost, totalCost);
      assert Without(q[n..], q[n]) == q[n + 1..];
      SeparateKept(it, spends, additions, removals, toRemove);
      RemoveFromPool(toRemove);
    }

    method FirstItem() returns (it: Item)
      requires Valid() && sorted != []
      ensures Queue() != [] && it == Queue()[0] && it.name in spends && spends[it.name] == it
    {
      assert OneRate(sorted[0]);
      it := sorted[0].items[0];
      assert it in Elements(Queue()) && it.name in KeysOf(ByName, it);
    }

    /** The rate of the last item that adding `cost` would evict; 0 if it would evict none; no rate if
        it can never fit. */
    method GetMinFeeRate(cost: nat) returns (rate: Option<real>)
      requires Valid()
      ensures rate == if cost > maxCost then None else Some(MinRate(Queue(), cost, maxCost))
    {
      ScanStart(Queue(), cost, maxCost);
      if !AtFullCapacity(cost) {
        return Some(0.0);
      }
      rate := ScanBuckets(sorted, totalCost, cost, maxCost);
    }
  }
}
