/** Items inside containers inside containers (src/container.cpp), and the weight that every container
    caches of what lies in it, at any depth. Weights are `uint32_t` and wrap around. */
module Containers {
  import opened Lists
  import opened Words

  // ---------------------------------------------------------------- arithmetic modulo 2^32

  lemma WrapPeriod(a: int, k: int)
    ensures Wrap(a + k * TWO32) == Wrap(a)
  {
  }

  lemma WrapCongruent(a: int, b: int, c: int)
    requires Wrap(a) == Wrap(b)
    ensures Wrap(a + c) == Wrap(b + c)
  {
    var k := a / TWO32 - b / TWO32;
    assert a + c == b + c + k * TWO32;
    WrapPeriod(b + c, k);
  }

  lemma WrapIdempotent(a: int)
    ensures Wrap(Wrap(a)) == Wrap(a)
  {
  }

  lemma WrapInside(a: int, b: int)
    ensures Wrap(a + Wrap(b)) == Wrap(a + b)
  {
    WrapIdempotent(b);
    WrapCongruent(Wrap(b), b, a);
  }

  // ---------------------------------------------------------------- lists

  predicate NoDuplicates<T(==)>(xs: seq<T>) {
    forall i, j :: 0 <= i < j < |xs| ==> xs[i] != xs[j]
  }

  lemma InsertAtFacts<T>(xs: seq<T>, at: nat, x: T)
    requires at <= |xs| && NoDuplicates(xs) && x !in xs
    ensures NoDuplicates(InsertAt(xs, at, x))
    ensures forall y :: y in InsertAt(xs, at, x) <==> y in xs || y == x
  {
    var r := InsertAt(xs, at, x);
    assert xs == xs[..at] + xs[at..];
    assert forall i :: 0 <= i < |r| ==> r[i] == if i < at then xs[i] else if i == at then x else xs[i - 1];
  }

  lemma RemoveAtFacts<T>(xs: seq<T>, at: nat)
    requires at < |xs| && NoDuplicates(xs)
    ensures NoDuplicates(RemoveAt(xs, at)) && InsertAt(RemoveAt(xs, at), at, xs[at]) == xs
    ensures forall y :: y in RemoveAt(xs, at) <==> y != xs[at] && y in xs
  {
    RemovedOnce(xs, at);
    hide RemoveAt;
    hide NoDuplicates;
    forall y ensures y in RemoveAt(xs, at) <==> y != xs[at] && y in xs { RemovedIn(xs, at, y); }
  }

  lemma RemovedOnce<T>(xs: seq<T>, at: nat)
    requires at < |xs| && NoDuplicates(xs)
    ensures NoDuplicates(RemoveAt(xs, at)) && InsertAt(RemoveAt(xs, at), at, xs[at]) == xs
  {
    var r := RemoveAt(xs, at);
    forall i, j | 0 <= i < j < |r| ensures r[i] != r[j] {
      assert xs[if i < at then i else i + 1] != xs[if j < at then j else j + 1];
    }
  }

  lemma RemovedIn<T>(xs: seq<T>, at: nat, y: T)
    requires at < |xs| && NoDuplicates(xs)
    ensures y in RemoveAt(xs, at) <==> y != xs[at] && y in xs
  {
    if y in xs[..at] {
      var i :| 0 <= i < at && xs[i] == y;
      assert xs[i] != xs[at];
    } else if y in xs[at + 1..] {
      var i :| at < i < |xs| && xs[i] == y;
      assert xs[at] != xs[i];
    } else {
      assert xs == xs[..at] + [xs[at]] + xs[at + 1..];
    }
  }

  // ---------------------------------------------------------------- items and where they lie

  /** What an item's `getParent` answers: nothing, a tile, a player, or the container it lies in. */
  datatype Holder = Nowhere | OnTile | OnPlayer | Inside(c: Item)

  class Item {
    const isContainer: bool
    const capacity: nat
    var ownWeight: uint32
    var parent: Holder
    var itemlist: seq<Item>
    var totalWeight: uint32

    constructor (isContainer: bool, capacity: nat, ownWeight: uint32)
      ensures this.isContainer == isContainer && this.capacity == capacity && this.ownWeight == ownWeight
      ensures parent == Nowhere && itemlist == [] && totalWeight == 0
    {
      this.isContainer, this.capacity, this.ownWeight := isContainer, capacity, ownWeight;
      parent, itemlist, totalWeight := Nowhere, [], 0;
    }

    /** `Container::getWeight`, and `Item::getWeight` where there are no contents. */
    function GetWeight(): uint32
      reads this`ownWeight, this`totalWeight
    {
      Wrap(ownWeight + totalWeight)
    }
  }

  /** Everything that lies somewhere: the list of each item, and where each item says it is. */
  datatype Tree = Tree(lists: map<Item, seq<Item>>, holder: map<Item, Holder>)

  /** What lies in `c` knows that it does, and lies there once. */
  ghost predicate Holds(t: Tree, c: Item)
    requires c in t.lists
  {
    && NoDuplicates(t.lists[c])
    && (t.lists[c] != [] ==> c.isContainer)
    && (forall x :: x in t.lists[c] ==> x in t.holder && t.holder[x] == Inside(c))
  }

  /** Where `x` lies knows that it does. */
  ghost predicate Lies(t: Tree, x: Item)
    requires x in t.holder
  {
    t.holder[x].Inside? ==> t.holder[x].c in t.lists && x in t.lists[t.holder[x].c]
  }

  /** Lists and holders agree, and nothing lies in two places. */
  ghost predicate Linked(t: Tree) {
    && t.lists.Keys == t.holder.Keys
    && (forall c :: c in t.lists ==> Holds(t, c))
    && (forall x :: x in t.holder ==> Lies(t, x))
  }

  /** Every holder ranks above what lies in it: the parent relation is a forest. */
  ghost predicate Ranked(t: Tree, rank: map<Item, nat>, bound: nat) {
    && rank.Keys == t.holder.Keys
    && (forall x :: x in rank ==> rank[x] < bound)
    && (forall x :: x in t.holder && t.holder[x].Inside? ==> t.holder[x].c in rank && rank[x] < rank[t.holder[x].c])
  }

  /** `x` and everything it lies in, directly or not. */
  ghost function Up(t: Tree, rank: map<Item, nat>, bound: nat, x: Item): (r: set<Item>)
    requires Ranked(t, rank, bound) && x in t.holder
    ensures x in r && r <= t.holder.Keys
    ensures forall y :: y in r && t.holder[y].Inside? ==> t.holder[y].c in r
    ensures forall y :: y in r && y != x ==> rank[x] < rank[y]
    decreases bound - rank[x]
  {
    {x} + (if t.holder[x].Inside? then Up(t, rank, bound, t.holder[x].c) else {})
  }

  /** `x`, so far nowhere, put at position `at` of the list of `c`. */
  ghost function Placed(t: Tree, c: Item, at: nat, x: Item): Tree
    requires c in t.lists && at <= |t.lists[c]|
  {
    Tree(t.lists[c := InsertAt(t.lists[c], at, x)], t.holder[x := Inside(c)])
  }

  /** The item at position `at` of the list of `c`, taken out of it. */
  ghost function Taken(t: Tree, c: Item, at: nat): Tree
    requires c in t.lists && at < |t.lists[c]|
  {
    Tree(t.lists[c := RemoveAt(t.lists[c], at)], t.holder[t.lists[c][at] := Nowhere])
  }

  lemma PlacedLinked(t: Tree, c: Item, at: nat, x: Item)
    requires Linked(t) && c in t.lists && c.isContainer && at <= |t.lists[c]|
    requires x in t.holder && t.holder[x].Nowhere?
    ensures Linked(Placed(t, c, at, x))
  {
    hide NoDuplicates;
    var t' := Placed(t, c, at, x);
    assert Holds(t, c);
    InsertAtFacts(t.lists[c], at, x);
    forall d | d in t'.lists ensures Holds(t', d) {
      assert Holds(t, d);
    }
    forall y | y in t'.holder ensures Lies(t', y) { assert Lies(t, y); }
  }

  lemma TakenLinked(t: Tree, c: Item, at: nat)
    requires Linked(t) && c in t.lists && at < |t.lists[c]|
    ensures Linked(Taken(t, c, at))
  {
    hide RemoveAt;
    hide NoDuplicates;
    var t' := Taken(t, c, at);
    var x := t.lists[c][at];
    assert Holds(t, c) && x in t.lists[c];
    RemoveAtFacts(t.lists[c], at);
    forall d | d in t'.lists ensures Holds(t', d) { assert Holds(t, d); }
    forall y | y in t'.holder ensures Lies(t', y) { assert Lies(t, y); }
  }

  /** Placing undoes taking. */
  lemma PlacedBack(t: Tree, c: Item, at: nat)
    requires Linked(t) && c in t.lists && at < |t.lists[c]|
    ensures var x, t' := t.lists[c][at], Taken(t, c, at);
            && x in t.holder && t.holder[x] == Inside(c) && t'.holder[x] == Nowhere && t'.holder.Keys == t.holder.Keys
            && at <= |t'.lists[c]| && Placed(t', c, at, x) == t
  {
    var x := t.lists[c][at];
    assert Holds(t, c) && x in t.lists[c];
    RemoveAtFacts(t.lists[c], at);
    assert Placed(Taken(t, c, at), c, at, x).lists == t.lists;
    assert Placed(Taken(t, c, at), c, at, x).holder == t.holder;
  }

  ghost function Lifted(rank: map<Item, nat>, up: set<Item>, lift: nat): map<Item, nat> {
    map x | x in rank :: if x in up then rank[x] + lift else rank[x]
  }

  /** Adding something that is not above `c` leaves a forest. */
  lemma PlacedRanked(t: Tree, rank: map<Item, nat>, bound: nat, c: Item, at: nat, x: Item)
    requires Ranked(t, rank, bound) && c in t.lists && at <= |t.lists[c]| && c in t.holder && x in t.holder
    requires x !in Up(t, rank, bound, c)
    ensures Ranked(Placed(t, c, at, x), Lifted(rank, Up(t, rank, bound, c), rank[x] + 1), bound + rank[x] + 1)
  {
  }

  lemma TakenRanked(t: Tree, rank: map<Item, nat>, bound: nat, c: Item, at: nat)
    requires Ranked(t, rank, bound) && c in t.lists && at < |t.lists[c]| && t.lists[c][at] in t.holder
    ensures Ranked(Taken(t, c, at), rank, bound)
  {
  }

  lemma ListFacts(t: Tree, d: Item, y: Item)
    requires Linked(t) && d in t.lists && y in t.holder
    ensures NoDuplicates(t.lists[d]) && (forall x :: x in t.lists[d] ==> x in t.holder && t.holder[x] == Inside(d))
    ensures y in t.lists[d] <==> t.holder[y] == Inside(d)
  {
    assert Holds(t, d) && Lies(t, y);
  }

  // ---------------------------------------------------------------- sums of weights

  type Weights = map<Item, uint32>

  ghost function Sum(xs: seq<Item>, weight: Weights): nat
    requires forall x :: x in xs ==> x in weight
  {
    if xs == [] then 0 else Sum(xs[..|xs| - 1], weight) + weight[xs[|xs| - 1]]
  }

  lemma {:induction false} SumFrame(xs: seq<Item>, weight: Weights, weight': Weights)
    requires forall x :: x in xs ==> x in weight && x in weight' && weight[x] == weight'[x]
    ensures Sum(xs, weight) == Sum(xs, weight')
  {
    if xs == [] {
    } else {
      SumFrame(xs[..|xs| - 1], weight, weight');
    }
  }

  /** One item becoming heavier by `diff` makes a list it is in heavier by `diff`, modulo 2^32. */
  lemma {:induction false} SumBump(xs: seq<Item>, weight: Weights, weight': Weights, y: Item, diff: int)
    requires NoDuplicates(xs)
    requires forall x :: x in xs ==> x in weight && x in weight' && (x != y ==> weight[x] == weight'[x])
    requires y in xs ==> weight'[y] == Wrap(weight[y] + diff)
    ensures Wrap(Sum(xs, weight')) == Wrap(Sum(xs, weight) + if y in xs then diff else 0)
  {
    hide Wrap;
    if y !in xs {
      SumFrame(xs, weight, weight');
    } else {
      var front, last := xs[..|xs| - 1], xs[|xs| - 1];
      if last == y {
        SumFrame(front, weight, weight');
        WrapIdempotent(weight[y] + diff);
        WrapCongruent(weight'[y], weight[y] + diff, Sum(front, weight));
      } else {
        SumBump(front, weight, weight', y, diff);
        WrapCongruent(Sum(front, weight'), Sum(front, weight) + diff, weight[last]);
      }
    }
  }

  lemma {:induction false} SumConcat(xs: seq<Item>, ys: seq<Item>, weight: Weights)
    requires forall x :: x in xs + ys ==> x in weight
    ensures Sum(xs + ys, weight) == Sum(xs, weight) + Sum(ys, weight)
  {
    if ys == [] {
      assert xs + ys == xs;
    } else {
      assert (xs + ys)[..|xs + ys| - 1] == xs + ys[..|ys| - 1];
      SumConcat(xs, ys[..|ys| - 1], weight);
    }
  }

  lemma SumInsert(xs: seq<Item>, at: nat, x: Item, weight: Weights)
    requires at <= |xs| && x in weight && forall y :: y in xs ==> y in weight
    ensures (forall y :: y in InsertAt(xs, at, x) ==> y in weight)
    ensures Sum(InsertAt(xs, at, x), weight) == Sum(xs, weight) + weight[x]
  {
    SumConcat(xs[..at], xs[at..], weight);
    SumConcat(xs[..at] + [x], xs[at..], weight);
    assert xs == xs[..at] + xs[at..];
    assert (xs[..at] + [x])[..at] == xs[..at];
  }

  lemma SumRemove(xs: seq<Item>, at: nat, weight: Weights)
    requires at < |xs| && forall y :: y in xs ==> y in weight
    ensures (forall y :: y in RemoveAt(xs, at) ==> y in weight)
    ensures Sum(RemoveAt(xs, at), weight) == Sum(xs, weight) - weight[xs[at]]
  {
    SumInsert(RemoveAt(xs, at), at, xs[at], weight);
    assert InsertAt(RemoveAt(xs, at), at, xs[at]) == xs;
  }

  // ---------------------------------------------------------------- the caches

  ghost predicate Closed(lists: map<Item, seq<Item>>, weight: Weights) {
    forall d, x :: d in lists && x in lists[d] ==> x in weight
  }

  ghost predicate LagAt(lists: map<Item, seq<Item>>, total: Weights, weight: Weights, d: Item, lag: int)
    requires Closed(lists, weight) && d in lists && d in total
  {
    Wrap(total[d] + lag) == Wrap(Sum(lists[d], weight))
  }

  /** Every cached total is the weight of the list, but for the total of `at`, which is short by `lag`. */
  ghost predicate Lagging(lists: map<Item, seq<Item>>, total: Weights, weight: Weights, at: Holder, lag: int) {
    && Closed(lists, weight)
    && total.Keys == lists.Keys
    && (forall d :: d in lists ==> LagAt(lists, total, weight, d, if at == Inside(d) then lag else 0))
  }

  lemma LinkedClosed(t: Tree, weight: Weights)
    requires Linked(t) && weight.Keys == t.holder.Keys
    ensures Closed(t.lists, weight)
  {
    forall d, x | d in t.lists && x in t.lists[d] ensures x in weight { assert Holds(t, d); }
  }

  /** A change of the weight of `y` alone makes the place where `y` lies lag. */
  lemma WeightChanged(t: Tree, total: Weights, weight: Weights, weight': Weights, y: Item, diff: int)
    requires Linked(t) && weight.Keys == weight'.Keys == t.holder.Keys && y in weight
    requires forall x :: x in weight && x != y ==> weight'[x] == weight[x]
    requires weight'[y] == Wrap(weight[y] + diff)
    requires Lagging(t.lists, total, weight, Nowhere, 0)
    ensures Lagging(t.lists, total, weight', t.holder[y], diff)
  {
    hide Wrap;
    hide Linked;
    hide Closed;
    LinkedClosed(t, weight);
    LinkedClosed(t, weight');
    forall d | d in t.lists ensures LagAt(t.lists, total, weight', d, if t.holder[y] == Inside(d) then diff else 0) {
      ListFacts(t, d, y);
      assert LagAt(t.lists, total, weight, d, 0);
      SumBump(t.lists[d], weight, weight', y, diff);
      WrapCongruent(total[d], Sum(t.lists[d], weight), diff);
    }
  }

  /** `totalWeight += diff` on the one total that lags by `diff`: now the place around it lags. */
  lemma LagMoves(t: Tree, total: Weights, weight: Weights, c: Item, diff: int)
    requires Linked(t) && weight.Keys == t.holder.Keys && c in weight && c in total
    requires Lagging(t.lists, total, weight, Inside(c), diff)
    ensures Lagging(t.lists, total[c := Wrap(total[c] + diff)], weight[c := Wrap(weight[c] + diff)], t.holder[c], diff)
  {
    hide Wrap;
    hide Linked;
    hide Closed;
    var total', weight' := total[c := Wrap(total[c] + diff)], weight[c := Wrap(weight[c] + diff)];
    LinkedClosed(t, weight);
    LinkedKeys(t);
    forall d | d in t.lists ensures LagAt(t.lists, total', weight, d, 0) {
      assert LagAt(t.lists, total, weight, d, if Inside(c) == Inside(d) then diff else 0);
      WrapIdempotent(total[c] + diff);
    }
    WeightChanged(t, total', weight, weight', c, diff);
  }

  lemma LinkedKeys(t: Tree)
    requires Linked(t)
    ensures t.lists.Keys == t.holder.Keys
  {
  }

  lemma PlacedLags(t: Tree, total: Weights, weight: Weights, c: Item, at: nat, x: Item, lag: int)
    requires c in t.lists && at <= |t.lists[c]| && x in weight
    requires Lagging(t.lists, total, weight, Inside(c), lag)
    ensures Lagging(Placed(t, c, at, x).lists, total, weight, Inside(c), lag + weight[x])
  {
    hide Wrap;
    hide InsertAt;
    var lists' := Placed(t, c, at, x).lists;
    SumInsert(t.lists[c], at, x, weight);
    WrapCongruent(total[c] + lag, Sum(t.lists[c], weight), weight[x]);
    forall d | d in lists' ensures LagAt(lists', total, weight, d, if Inside(c) == Inside(d) then lag + weight[x] else 0) {
      assert LagAt(t.lists, total, weight, d, if Inside(c) == Inside(d) then lag else 0);
    }
  }

  lemma TakenLags(t: Tree, total: Weights, weight: Weights, c: Item, at: nat)
    requires c in t.lists && at < |t.lists[c]|
    requires Lagging(t.lists, total, weight, Nowhere, 0)
    ensures t.lists[c][at] in weight
    ensures Lagging(Taken(t, c, at).lists, total, weight, Inside(c), -(weight[t.lists[c][at]] as int))
  {
    hide Wrap;
    hide RemoveAt;
    var lists' := Taken(t, c, at).lists;
    var x := t.lists[c][at];
    SumRemove(t.lists[c], at, weight);
    assert LagAt(t.lists, total, weight, c, 0);
    WrapCongruent(total[c], Sum(t.lists[c], weight), -(weight[x] as int));
    forall d | d in lists' ensures LagAt(lists', total, weight, d, if Inside(c) == Inside(d) then -(weight[x] as int) else 0) {
      assert LagAt(t.lists, total, weight, d, 0);
    }
  }

  lemma NotShort(lists: map<Item, seq<Item>>, total: Weights, weight: Weights, at: Holder, lag: int, at': Holder)
    requires Lagging(lists, total, weight, at, lag) && (at.Inside? ==> lag == 0)
    ensures Lagging(lists, total, weight, at', 0)
  {
    forall d | d in lists ensures LagAt(lists, total, weight, d, 0) {
      assert LagAt(lists, total, weight, d, if at == Inside(d) then lag else 0);
    }
  }

  /** What lies above `x` depends on the holders above `x` only. */
  lemma {:induction false} UpSame(t: Tree, t': Tree, rank: map<Item, nat>, bound: nat, x: Item)
    requires Ranked(t, rank, bound) && Ranked(t', rank, bound) && x in t.holder
    requires forall y :: y in rank && rank[y] >= rank[x] ==> t.holder[y] == t'.holder[y]
    ensures Up(t, rank, bound, x) == Up(t', rank, bound, x)
    decreases bound - rank[x]
  {
    if !t.holder[x].Inside? {
    } else {
      UpSame(t, t', rank, bound, t.holder[x].c);
    }
  }

  /** Taking something out of `c` changes nothing above `c`. */
  lemma TakenUp(t: Tree, rank: map<Item, nat>, bound: nat, c: Item, at: nat)
    requires Linked(t) && Ranked(t, rank, bound) && c in t.lists && at < |t.lists[c]|
    ensures Ranked(Taken(t, c, at), rank, bound) && Up(Taken(t, c, at), rank, bound, c) == Up(t, rank, bound, c)
  {
    assert Holds(t, c) && t.lists[c][at] in t.lists[c];
    TakenRanked(t, rank, bound, c, at);
    UpSame(t, Taken(t, c, at), rank, bound, c);
  }

  lemma WrapBack(a: uint32, b: uint32)
    ensures Wrap(a + (b as int - a)) == b
  {
  }

  lemma BumpedWeight(own: uint32, total: uint32, diff: int)
    ensures Wrap(own + Wrap(total + diff)) == Wrap(Wrap(own + total) + diff)
  {
    hide Wrap;
    WrapInside(own, total + diff);
    WrapInside(diff, own + total);
  }

  /** Where everything lies nowhere, there is a forest and nothing to cache. */
  lemma Scattered(lists: map<Item, seq<Item>>, holder: map<Item, Holder>, total: Weights, weight: Weights, rank: map<Item, nat>)
    requires lists.Keys == holder.Keys == total.Keys == weight.Keys == rank.Keys
    requires forall x :: x in lists ==> lists[x] == [] && holder[x] == Nowhere && total[x] == 0 && rank[x] == 0
    ensures Linked(Tree(lists, holder)) && Ranked(Tree(lists, holder), rank, 1) && Lagging(lists, total, weight, Nowhere, 0)
  {
  }

  lemma RankedAt(t: Tree, rank: map<Item, nat>, bound: nat, x: Item)
    requires Ranked(t, rank, bound) && x in t.holder
    ensures x in rank && rank[x] < bound
    ensures t.holder[x].Inside? ==> t.holder[x].c in rank && t.holder[x].c in t.holder && rank[x] < rank[t.holder[x].c]
  {
  }

  // ---------------------------------------------------------------- weights at every depth

  /** What every item weighs, given what it weighs without contents and what it caches of them. */
  ghost function Weighed(own: Weights, total: Weights): (r: Weights)
    ensures own.Keys == total.Keys ==> r.Keys == own.Keys
  {
    map x | x in own && x in total :: Wrap(own[x] as int + total[x])
  }

  lemma WeighedUpdate(own: Weights, total: Weights, c: Item, n: uint32, m: uint32)
    requires own.Keys == total.Keys
    ensures Weighed(own[c := n], total[c := m]) == Weighed(own, total)[c := Wrap(n + m)]
  {
    hide Wrap;
  }

  lemma WeighedAt(own: Weights, total: Weights, c: Item)
    requires c in own && c in total
    ensures c in Weighed(own, total) && Weighed(own, total)[c] == Wrap(own[c] as int + total[c])
  {
  }

  lemma SelfUpdate<V>(m: map<Item, V>, c: Item)
    requires c in m
    ensures m[c := m[c]] == m
  {
  }

  /** What lies in `c` ranks below it. */
  lemma ChildRanks(t: Tree, rank: map<Item, nat>, bound: nat, c: Item)
    requires Linked(t) && Ranked(t, rank, bound) && c in t.lists
    ensures c in rank && forall y :: y in t.lists[c] ==> y in t.holder && y in rank && rank[y] < rank[c]
  {
    assert Holds(t, c);
  }

  /** What an item really weighs: itself and, at any depth, everything in it. */
  ghost function DeepWeight(t: Tree, rank: map<Item, nat>, bound: nat, own: Weights, x: Item): nat
    requires Linked(t) && Ranked(t, rank, bound) && own.Keys == t.holder.Keys && x in own
    decreases rank[x], |t.lists[x]| + 1
  {
    ChildRanks(t, rank, bound, x);
    own[x] + DeepSum(t, rank, bound, own, t.lists[x], rank[x])
  }

  ghost function DeepSum(t: Tree, rank: map<Item, nat>, bound: nat, own: Weights, xs: seq<Item>, limit: nat): nat
    requires Linked(t) && Ranked(t, rank, bound) && own.Keys == t.holder.Keys
    requires forall y :: y in xs ==> y in own && rank[y] < limit
    decreases limit, |xs|
  {
    if xs == [] then 0 else
      var last := xs[|xs| - 1];
      DeepSum(t, rank, bound, own, xs[..|xs| - 1], limit) + DeepWeight(t, rank, bound, own, last)
  }

  /** The caches add up at every level: `getWeight` is the weight of the whole subtree, modulo 2^32. */
  lemma {:induction false} WeightIsDeep(t: Tree, rank: map<Item, nat>, bound: nat, own: Weights, total: Weights, x: Item)
    requires Linked(t) && Ranked(t, rank, bound) && own.Keys == t.holder.Keys && x in own
    requires Lagging(t.lists, total, Weighed(own, total), Nowhere, 0)
    ensures x in Weighed(own, total) && Weighed(own, total)[x] == Wrap(DeepWeight(t, rank, bound, own, x))
    decreases rank[x], |t.lists[x]| + 1
  {
    hide Wrap;
    hide Linked;
    hide Ranked;
    hide Weighed;
    LinkedKeys(t);
    ChildRanks(t, rank, bound, x);
    RankedAt(t, rank, bound, x);
    WeighedAt(own, total, x);
    var weight, deep := Weighed(own, total), DeepSum(t, rank, bound, own, t.lists[x], rank[x]);
    SumIsDeep(t, rank, bound, own, total, t.lists[x], rank[x]);
    assert LagAt(t.lists, total, weight, x, 0);
    WrapCongruent(total[x], deep, own[x]);
  }

  lemma {:induction false} SumIsDeep(t: Tree, rank: map<Item, nat>, bound: nat, own: Weights, total: Weights,
                                    xs: seq<Item>, limit: nat)
    requires Linked(t) && Ranked(t, rank, bound) && own.Keys == t.holder.Keys
    requires Lagging(t.lists, total, Weighed(own, total), Nowhere, 0)
    requires forall y :: y in xs ==> y in own && rank[y] < limit
    ensures forall y :: y in xs ==> y in Weighed(own, total)
    ensures Wrap(Sum(xs, Weighed(own, total))) == Wrap(DeepSum(t, rank, bound, own, xs, limit))
    decreases limit, |xs|
  {
    hide Wrap;
    hide Linked;
    hide Ranked;
    hide Weighed;
    LinkedKeys(t);
    if xs == [] {
    } else {
      var front, last := xs[..|xs| - 1], xs[|xs| - 1];
      SumIsDeep(t, rank, bound, own, total, front, limit);
      WeightIsDeep(t, rank, bound, own, total, last);
      var weight, deep := Weighed(own, total), DeepSum(t, rank, bound, own, front, limit);
      var heavy := DeepWeight(t, rank, bound, own, last);
      WrapCongruent(Sum(front, weight), deep, weight[last]);
      WrapIdempotent(heavy);
      WrapCongruent(weight[last], heavy, deep);
    }
  }

  // ---------------------------------------------------------------- the operations

  ghost predicate Keyed(members: set<Item>, t: Tree, own: Weights, total: Weights) {
    members == t.lists.Keys == t.holder.Keys == own.Keys == total.Keys
  }

  lemma AllKeyed(members: set<Item>, t: Tree, own: Weights, total: Weights)
    requires members == t.lists.Keys && members == t.holder.Keys && members == own.Keys && members == total.Keys
    ensures Keyed(members, t, own, total)
  {
  }

  lemma KeyedUpdate(members: set<Item>, t: Tree, own: Weights, total: Weights, c: Item, xs: seq<Item>, h: Holder, n: uint32)
    requires Keyed(members, t, own, total) && c in members
    ensures Keyed(members, Tree(t.lists[c := xs], t.holder), own, total)
    ensures Keyed(members, Tree(t.lists, t.holder[c := h]), own, total)
    ensures Keyed(members, t, own[c := n], total) && Keyed(members, t, own, total[c := n])
  {
  }

  /** What putting an item into a list does to the forest and to its caches. */
  lemma Inserted(t: Tree, rank: map<Item, nat>, bound: nat, own: Weights, total: Weights, c: Item, at: nat, item: Item, lag: int)
    requires Linked(t) && Ranked(t, rank, bound) && own.Keys == total.Keys == t.holder.Keys
    requires Lagging(t.lists, total, Weighed(own, total), Inside(c), lag)
    requires c in t.lists && c.isContainer && at <= |t.lists[c]| && c in t.holder
    requires item in t.holder && t.holder[item].Nowhere? && item !in Up(t, rank, bound, c)
    ensures item in rank && item in own && item in total && Linked(Placed(t, c, at, item))
    ensures Ranked(Placed(t, c, at, item), Lifted(rank, Up(t, rank, bound, c), rank[item] + 1), bound + rank[item] + 1)
    ensures Lagging(Placed(t, c, at, item).lists, total, Weighed(own, total), Inside(c), lag + Wrap(own[item] as int + total[item]))
  {
    hide Linked;
    hide Ranked;
    hide Lagging;
    hide Weighed;
    hide Placed;
    hide Lifted;
    hide Up;
    PlacedLinked(t, c, at, item);
    RankedAt(t, rank, bound, item);
    PlacedRanked(t, rank, bound, c, at, item);
    WeighedAt(own, total, item);
    PlacedLags(t, total, Weighed(own, total), c, at, item, lag);
  }

  /** `v` for each of the items. */
  ghost function Each<V>(items: set<Item>, v: V): (r: map<Item, V>)
    ensures r.Keys == items && (forall x :: x in items ==> r[x] == v)
  {
    map x | x in items :: v
  }

  /** The items of the world. The ghost fields name them, say how they lie and what they weigh. */
  class Forest {
    ghost var members: set<Item>
    ghost var lists: map<Item, seq<Item>>
    ghost var holder: map<Item, Holder>
    ghost var own: Weights
    ghost var total: Weights
    ghost var rank: map<Item, nat>
    ghost var bound: nat

    ghost function Shape(): Tree
      reads this`lists, this`holder
    {
      Tree(lists, holder)
    }

    ghost predicate TiedLists()
      reads this`members, this`lists, members`itemlist
    {
      forall x :: x in members ==> x in lists && x.itemlist == lists[x]
    }

    ghost predicate TiedHolders()
      reads this`members, this`holder, members`parent
    {
      forall x :: x in members ==> x in holder && x.parent == holder[x]
    }

    ghost predicate TiedTotals()
      reads this`members, this`total, members`totalWeight
    {
      forall x :: x in members ==> x in total && x.totalWeight == total[x]
    }

    ghost predicate TiedOwn()
      reads this`members, this`own, members`ownWeight
    {
      forall x :: x in members ==> x in own && x.ownWeight == own[x]
    }

    /** The ghost fields say what the items say. */
    ghost predicate Tied()
      reads this`members, this`lists, this`holder, this`own, this`total, members
    {
      Keyed(members, Shape(), own, total) && TiedLists() && TiedHolders() && TiedTotals() && TiedOwn()
    }

    lemma ItemTied(x: Item)
      requires Tied() && x in members
      ensures Keyed(members, Shape(), own, total) && own.Keys == total.Keys == holder.Keys
      ensures x in lists && x.itemlist == lists[x] && x in holder && x.parent == holder[x]
      ensures x in total && x.totalWeight == total[x] && x in own && x.ownWeight == own[x]
    {
    }

    /** The items form a forest, and the total of `at` alone is short, by `lag`. */
    ghost predicate Short(at: Holder, lag: int)
      reads this, members
    {
      && Tied()
      && Linked(Shape())
      && Ranked(Shape(), rank, bound)
      && Lagging(lists, total, Weighed(own, total), at, lag)
    }

    /** The items form a forest, and every cached total is the weight of the contents. */
    ghost predicate Valid()
      reads this, members
    {
      Short(Nowhere, 0)
    }

    /** In every reachable state `getWeight` is what the item and all it holds weigh, at any depth. */
    lemma CachesAreDeep(x: Item)
      requires Valid() && x in members
      ensures Linked(Shape()) && Ranked(Shape(), rank, bound) && own.Keys == holder.Keys && x in own
      ensures x.GetWeight() == Wrap(DeepWeight(Shape(), rank, bound, own, x))
    {
      hide Linked;
      hide Ranked;
      hide Lagging;
      hide Wrap;
      ItemTied(x);
      WeightIsDeep(Shape(), rank, bound, own, total, x);
      WeighedAt(own, total, x);
    }

    /** Any population of items and empty containers that lie nowhere yet. */
    constructor (items: set<Item>)
      requires forall x :: x in items ==> x.parent.Nowhere? && x.itemlist == [] && x.totalWeight == 0
      ensures Valid() && members == items
    {
      members, bound := items, 1;
      lists, holder := Each(items, []), Each(items, Nowhere);
      own, total := map x | x in items :: x.ownWeight, Each(items, 0);
      rank := Each(items, 0);
      new;
      hide Each;
      hide Linked;
      hide Ranked;
      hide Lagging;
      hide Weighed;
      hide Keyed;
      hide TiedLists;
      hide TiedHolders;
      hide TiedTotals;
      hide TiedOwn;
      hide Short;
      Scattered(lists, holder, total, Weighed(own, total), rank);
      AllKeyed(members, Shape(), own, total);
      TiesHold();
      ItIsShort(Nowhere, 0);
    }

    lemma TiesHold()
      requires forall x :: x in members ==> x in lists && x.itemlist == lists[x] && x in holder && x.parent == holder[x]
      requires forall x :: x in members ==> x in total && x.totalWeight == total[x] && x in own && x.ownWeight == own[x]
      ensures TiedLists() && TiedHolders() && TiedTotals() && TiedOwn()
    {
    }

    lemma TiedParts()
      requires Tied()
      ensures Keyed(members, Shape(), own, total) && TiedLists() && TiedHolders() && TiedTotals() && TiedOwn()
    {
    }

    lemma TiedByParts()
      requires Keyed(members, Shape(), own, total) && TiedLists() && TiedHolders() && TiedTotals() && TiedOwn()
      ensures Tied()
    {
    }

    lemma ItIsShort(at: Holder, lag: int)
      requires Tied() && Linked(Shape()) && Ranked(Shape(), rank, bound) && Lagging(lists, total, Weighed(own, total), at, lag)
      ensures Short(at, lag)
    {
    }

    lemma ShortAs(t: Tree, weight: Weights, at: Holder, lag: int)
      requires Tied() && Shape() == t && Weighed(own, total) == weight
      requires Linked(t) && Ranked(t, rank, bound) && Lagging(t.lists, total, weight, at, lag)
      ensures Short(at, lag)
    {
    }

    lemma ItWasShort(at: Holder, lag: int)
      requires Short(at, lag)
      ensures Tied() && Linked(Shape()) && Ranked(Shape(), rank, bound) && Lagging(lists, total, Weighed(own, total), at, lag)
    {
    }

    // Each of the next four changes one field, and the ghost field that mirrors it.

    method StoreTotal(c: Item, n: uint32)
      requires c in members && Tied()
      modifies c`totalWeight, this`total
      ensures Tied() && c.totalWeight == n && total == old(total)[c := n]
    {
      hide Tied;
      hide Keyed;
      hide TiedLists;
      hide TiedHolders;
      hide TiedOwn;
      TiedParts();
      KeyedUpdate(members, Shape(), own, total, c, [], Nowhere, n);
      c.totalWeight := n;
      total := total[c := n];
      TiedByParts();
    }

    method StoreOwn(c: Item, n: uint32)
      requires c in members && Tied()
      modifies c`ownWeight, this`own
      ensures Tied() && c.ownWeight == n && own == old(own)[c := n]
    {
      hide Tied;
      hide Keyed;
      hide TiedLists;
      hide TiedHolders;
      hide TiedTotals;
      TiedParts();
      KeyedUpdate(members, Shape(), own, total, c, [], Nowhere, n);
      c.ownWeight := n;
      own := own[c := n];
      TiedByParts();
    }

    method StoreList(c: Item, xs: seq<Item>)
      requires c in members && Tied()
      modifies c`itemlist, this`lists
      ensures Tied() && c.itemlist == xs && lists == old(lists)[c := xs]
    {
      hide Tied;
      hide Keyed;
      hide TiedHolders;
      hide TiedTotals;
      hide TiedOwn;
      TiedParts();
      KeyedUpdate(members, Shape(), own, total, c, xs, Nowhere, 0);
      c.itemlist := xs;
      lists := lists[c := xs];
      TiedByParts();
    }

    method StoreParent(x: Item, h: Holder)
      requires x in members && Tied()
      modifies x`parent, this`holder
      ensures Tied() && x.parent == h && holder == old(holder)[x := h]
    {
      hide Tied;
      hide Keyed;
      hide TiedLists;
      hide TiedTotals;
      hide TiedOwn;
      TiedParts();
      KeyedUpdate(members, Shape(), own, total, x, [], h, 0);
      x.parent := h;
      holder := holder[x := h];
      TiedByParts();
    }

    lemma NotMember(x: Item)
      requires Tied()
      ensures x in holder <==> x in members
      ensures own.Keys == total.Keys == holder.Keys
    {
    }

    /** `updateItemWeight`: the difference goes to `c` and to every container around it. */
    method UpdateItemWeight(c: Item, diff: int)
      requires c in members && Short(Inside(c), diff)
      modifies members`totalWeight, this`total
      ensures Valid()
    {
      hide Linked;
      hide Ranked;
      hide Lagging;
      hide Tied;
      hide Weighed;
      var cur := c;
      Bump(cur, diff);
      ItemTied(cur);
      RankedAt(Shape(), rank, bound, cur);
      while cur.parent.Inside?
        invariant cur in members && Short(cur.parent, diff)
        invariant cur in rank && rank[cur] < bound
        decreases bound - rank[cur]
      {
        ItemTied(cur);
        RankedAt(Shape(), rank, bound, cur);
        NotMember(cur.parent.c);
        cur := cur.parent.c;
        Bump(cur, diff);
        ItemTied(cur);
        RankedAt(Shape(), rank, bound, cur);
      }
      NotShort(lists, total, Weighed(own, total), cur.parent, diff, Nowhere);
    }

    /** `totalWeight += diff` where it is short by that much: now the place around `c` is short. */
    method Bump(c: Item, diff: int)
      requires c in members && Short(Inside(c), diff)
      modifies c`totalWeight, this`total
      ensures Short(c.parent, diff)
    {
      hide Wrap;
      hide Linked;
      hide Ranked;
      hide Lagging;
      hide Keyed;
      hide Tied;
      hide Weighed;
      ItemTied(c);
      BumpedWeight(c.ownWeight, c.totalWeight, diff);
      LagMoves(Shape(), total, Weighed(own, total), c, diff);
      WeighedAt(own, total, c);
      WeighedUpdate(own, total, c, c.ownWeight, Wrap(c.totalWeight + diff));
      SelfUpdate(own, c);
      StoreTotal(c, Wrap(c.totalWeight + diff));
    }

    /** Puts an item that lies nowhere into a list and links it; no total counts it yet. */
    method Insert(c: Item, at: nat, item: Item, ghost lag: int)
      requires c in members && c.isContainer && at <= |c.itemlist| && Short(Inside(c), lag)
      requires item in members && item.parent.Nowhere? && item !in Above(c)
      modifies this`lists, this`holder, this`rank, this`bound, c`itemlist, item`parent
      ensures Short(Inside(c), lag + item.GetWeight())
      ensures c in old(lists) && at <= |old(lists)[c]| && Shape() == Placed(old(Shape()), c, at, item)
    {
      hide Linked;
      hide Ranked;
      hide Lagging;
      hide Keyed;
      hide Tied;
      hide Weighed;
      hide Short;
      hide Above;
      hide Placed;
      hide Lifted;
      ghost var t, weight := Shape(), Weighed(own, total);
      ghost var higher, top := Lifted(rank, Above(c), RankOf(item) + 1), bound + RankOf(item) + 1;
      InsertedHere(c, at, item, lag);
      Link(c, at, item, higher, top);
      ShortAs(Placed(t, c, at, item), weight, Inside(c), lag + item.GetWeight());
    }

    lemma InsertedHere(c: Item, at: nat, item: Item, lag: int)
      requires c in members && c.isContainer && at <= |c.itemlist| && Short(Inside(c), lag)
      requires item in members && item.parent.Nowhere? && item !in Above(c)
      ensures Tied() && c in lists && at <= |lists[c]| && Linked(Placed(Shape(), c, at, item))
      ensures Ranked(Placed(Shape(), c, at, item), Lifted(rank, Above(c), RankOf(item) + 1), bound + RankOf(item) + 1)
      ensures Lagging(Placed(Shape(), c, at, item).lists, total, Weighed(own, total), Inside(c), lag + item.GetWeight())
    {
      hide Linked;
      hide Ranked;
      hide Lagging;
      hide Keyed;
      hide Tied;
      hide Weighed;
      hide Placed;
      hide Lifted;
      ItWasShort(Inside(c), lag);
      ItemTied(c);
      ItemTied(item);
      AboveIsUp(c);
      Inserted(Shape(), rank, bound, own, total, c, at, item, lag);
    }

    ghost function RankOf(x: Item): nat
      reads this`rank
    {
      if x in rank then rank[x] else 0
    }

    /** The two assignments that put an item into a list; the ghost ranks follow. */
    method Link(c: Item, at: nat, item: Item, ghost higher: map<Item, nat>, ghost top: nat)
      requires c in members && at <= |c.itemlist| && item in members && Tied()
      modifies this`lists, this`holder, this`rank, this`bound, c`itemlist, item`parent
      ensures Tied() && c in old(lists) && at <= |old(lists)[c]| && Shape() == Placed(old(Shape()), c, at, item)
      ensures rank == higher && bound == top
    {
      hide Tied;
      hide Keyed;
      ItemTied(c);
      rank, bound := higher, top;
      StoreList(c, InsertAt(c.itemlist, at, item));
      StoreParent(item, Inside(c));
    }

    lemma AboveIsUp(c: Item)
      requires Ranked(Shape(), rank, bound) && c in holder
      ensures Above(c) == Up(Shape(), rank, bound, c)
    {
    }

    /** `c` and everything it lies in. */
    ghost function Above(c: Item): set<Item>
      reads this`holder, this`lists, this`rank, this`bound
    {
      if Ranked(Shape(), rank, bound) && c in holder then Up(Shape(), rank, bound, c) else {}
    }

    /** Takes an item out of the list it lies in; the total of the container still counts it. */
    method Remove(c: Item, at: nat, item: Item)
      requires c in members && at < |c.itemlist| && c.itemlist[at] == item && item in members && Valid()
      modifies this`lists, this`holder, c`itemlist, item`parent
      ensures Short(Inside(c), -(item.GetWeight() as int))
      ensures c in old(lists) && at < |old(lists)[c]| && Shape() == Taken(old(Shape()), c, at)
      ensures c.itemlist == RemoveAt(old(c.itemlist), at) && Above(c) == old(Above(c))
    {
      hide Linked;
      hide Ranked;
      hide Lagging;
      hide Keyed;
      hide Tied;
      hide Weighed;
      hide RemoveAt;
      hide Up;
      ItemTied(c);
      ItemTied(item);
      TakenLinked(Shape(), c, at);
      TakenUp(Shape(), rank, bound, c, at);
      WeighedAt(own, total, item);
      TakenLags(Shape(), total, Weighed(own, total), c, at);
      StoreParent(item, Nowhere);
      StoreList(c, RemoveAt(c.itemlist, at));
    }

    /** `getThingIndex`. */
    method GetThingIndex(c: Item, item: Item) returns (index: int)
      ensures item in c.itemlist <==> index != -1
      ensures index != -1 ==> 0 <= index < |c.itemlist| && c.itemlist[index] == item && item !in c.itemlist[..index]
    {
      index := 0;
      while index < |c.itemlist|
        invariant 0 <= index <= |c.itemlist| && item !in c.itemlist[..index]
      {
        if c.itemlist[index] == item { return; }
        index := index + 1;
      }
      index := -1;
    }

    /** `addThing`: to the front, unless the index is past the capacity. */
    method AddThing(c: Item, index: int, item: Item)
      requires Valid() && c in members && c.isContainer
      requires item in members && item.parent.Nowhere? && item !in Above(c)
      modifies this`lists, this`holder, this`total, this`rank, this`bound, c`itemlist, item`parent, members`totalWeight
      ensures Valid() && c in old(lists)
      ensures Shape() == if index >= c.capacity then old(Shape()) else Placed(old(Shape()), c, 0, item)
    {
      if index >= c.capacity {
        ItemTied(c);
        return;
      }
      InternalAddThing(c, item);
    }

    /** `internalAddThing`: to the front, whatever the capacity. */
    method InternalAddThing(c: Item, item: Item)
      requires Valid() && c in members && c.isContainer
      requires item in members && item.parent.Nowhere? && item !in Above(c)
      modifies this`lists, this`holder, this`total, this`rank, this`bound, c`itemlist, item`parent, members`totalWeight
      ensures Valid() && c in old(lists) && Shape() == Placed(old(Shape()), c, 0, item)
    {
      hide Linked;
      hide Ranked;
      hide Lagging;
      hide Keyed;
      hide Tied;
      hide Short;
      hide Above;
      hide Placed;
      Unshort(c);
      ItemTied(c);
      Insert(c, 0, item, 0);
      UpdateItemWeight(c, item.GetWeight());
    }

    /** `addItemBack`, and one round of the loop of `unserializeItemNode`: to the back. */
    method AddItemBack(c: Item, item: Item)
      requires Valid() && c in members && c.isContainer
      requires item in members && item.parent.Nowhere? && item !in Above(c)
      modifies this`lists, this`holder, this`total, this`rank, this`bound, c`itemlist, item`parent, members`totalWeight
      ensures Valid() && c in old(lists) && Shape() == Placed(old(Shape()), c, |old(lists)[c]|, item)
    {
      hide Linked;
      hide Ranked;
      hide Lagging;
      hide Keyed;
      hide Tied;
      hide Short;
      hide Above;
      hide Placed;
      Unshort(c);
      ItemTied(c);
      Insert(c, |c.itemlist|, item, 0);
      UpdateItemWeight(c, item.GetWeight());
    }

    /** `updateThing`: an item of the list turns into one that weighs `newWeight` by itself. */
    method UpdateThing(c: Item, item: Item, newWeight: uint32)
      requires Valid() && c in members && item in members
      modifies this`own, this`total, item`ownWeight, members`totalWeight
      ensures Valid() && own == if item in c.itemlist then old(own)[item := newWeight] else old(own)
    {
      hide *;
      var index := GetThingIndex(c, item);
      if index == -1 { return; }
      Reweigh(c, index, item, newWeight);
    }

    method Reweigh(c: Item, index: nat, item: Item, newWeight: uint32)
      requires Valid() && c in members && index < |c.itemlist| && c.itemlist[index] == item && item in members
      modifies this`own, this`total, item`ownWeight, members`totalWeight
      ensures Valid() && own == old(own)[item := newWeight]
    {
      hide Wrap;
      hide Linked;
      hide Ranked;
      hide Lagging;
      hide Keyed;
      hide Weighed;
      hide Tied;
      var oldWeight := item.GetWeight();
      var diff := Wrap(newWeight + item.totalWeight) as int - oldWeight;
      ItemTied(c);
      ItemTied(item);
      ListFacts(Shape(), c, item);
      WeighedAt(own, total, item);
      WeighedUpdate(own, total, item, newWeight, item.totalWeight);
      SelfUpdate(total, item);
      WrapBack(oldWeight, Wrap(newWeight + item.totalWeight));
      WeightChanged(Shape(), total, Weighed(own, total), Weighed(own[item := newWeight], total), item, diff);
      StoreOwn(item, newWeight);
      UpdateItemWeight(c, diff);
    }

    /** `replaceThing`: an item takes the place of the one at `index`, which then lies nowhere. */
    method ReplaceThing(c: Item, index: nat, item: Item)
      requires Valid() && c in members && c.isContainer
      requires item in members && item.parent.Nowhere? && item !in Above(c)
      modifies this`lists, this`holder, this`total, this`rank, this`bound
      modifies c`itemlist, members`parent, members`totalWeight
      ensures Valid() && c in old(lists)
      ensures Shape() == if index < |old(lists)[c]| then Placed(Taken(old(Shape()), c, index), c, index, item) else old(Shape())
    {
      hide Linked;
      hide Ranked;
      hide Keyed;
      hide Tied;
      hide Short;
      hide Above;
      hide Placed;
      hide Taken;
      Contents(c);
      if index >= |c.itemlist| { return; }
      var replaced := c.itemlist[index];
      Remove(c, index, replaced);
      Insert(c, index, item, -(replaced.GetWeight() as int));
      UpdateItemWeight(c, -(replaced.GetWeight() as int) + item.GetWeight());
    }

    lemma Contents(c: Item)
      requires Valid() && c in members
      ensures c in lists && c.itemlist == lists[c] && NoDuplicates(c.itemlist) && (c.itemlist != [] ==> c.isContainer)
      ensures forall x :: x in c.itemlist ==> x in members && x.parent == Inside(c)
    {
      hide Ranked;
      hide Lagging;
      assert Holds(Shape(), c);
    }

    /** `removeThing`: part of a stack (which then weighs `rest`), or the whole item. The source
        updates the weights before it takes the item out; the result is the same. */
    method RemoveThing(c: Item, item: Item, partOfStack: bool, rest: uint32)
      requires Valid() && c in members && item in members
      modifies this`lists, this`holder, this`own, this`total
      modifies c`itemlist, item`parent, item`ownWeight, members`totalWeight
      ensures Valid() && c in old(lists)
      ensures own == if partOfStack && item in old(lists)[c] then old(own)[item := rest] else old(own)
      ensures partOfStack || item !in old(lists)[c] ==> Shape() == old(Shape())
      ensures forall k :: 0 <= k < |old(lists)[c]| && old(lists)[c][k] == item && !partOfStack ==>
                            Shape() == Taken(old(Shape()), c, k)
    {
      hide Linked;
      hide Ranked;
      hide Keyed;
      hide Tied;
      hide Valid;
      hide Short;
      hide Above;
      hide Taken;
      Contents(c);
      var index := GetThingIndex(c, item);
      if index == -1 { return; }
      if partOfStack {
        Reweigh(c, index, item, rest);
      } else {
        Remove(c, index, item);
        UpdateItemWeight(c, -(item.GetWeight() as int));
      }
    }

    lemma Unshort(c: Item)
      requires Valid()
      ensures Short(Inside(c), 0) && Tied()
    {
      NotShort(lists, total, Weighed(own, total), Nowhere, 0, Inside(c));
    }
  }
}
