/** Walks over the containers: breadth first through the contents, upwards through the holders, and
    what the two queries built on them promise (src/container.cpp, src/depotchest.cpp, src/item.cpp). */
module ContainerWalks {
  import opened Containers
  import opened Lists
  import opened Words

  /** A forest and the ranks that show it is one. */
  datatype World = World(t: Tree, rank: map<Item, nat>, bound: nat) {
    ghost predicate Ok() {
      Linked(t) && Ranked(t, rank, bound)
    }

    /** `x` and everything it lies in. */
    ghost function Above(x: Item): set<Item>
      requires Ok() && x in t.holder
    {
      Up(t, rank, bound, x)
    }
  }

  // ---------------------------------------------------------------- what lies below

  /** Everything that lies in `c`, at any depth. */
  ghost function Below(w: World, c: Item): multiset<Item>
    requires w.Ok() && c in w.t.lists
    decreases w.rank[c], |w.t.lists[c]| + 1
  {
    ChildRanks(w.t, w.rank, w.bound, c);
    WithBelow(w, w.t.lists[c], w.rank[c])
  }

  /** The items of a list, and everything that lies in them. */
  ghost function WithBelow(w: World, xs: seq<Item>, limit: nat): multiset<Item>
    requires w.Ok() && forall y :: y in xs ==> y in w.t.holder && w.rank[y] < limit
    decreases limit, |xs|
  {
    if xs == [] then multiset{} else
      multiset{xs[0]} + Below(w, xs[0]) + WithBelow(w, xs[1..], limit)
  }

  /** Of the things `x` lies in, two in the same container are the same. */
  lemma {:induction false} OnePath(w: World, x: Item, y: Item, z: Item)
    requires w.Ok() && x in w.t.holder && y in w.Above(x) && z in w.Above(x)
    requires w.t.holder[y].Inside? && w.t.holder[y] == w.t.holder[z]
    ensures y == z
    decreases w.bound - w.rank[x]
  {
    hide Linked;
    if !w.t.holder[x].Inside? {
    } else {
      var p := w.t.holder[x].c;
      if y != x && z != x { OnePath(w, p, y, z); }
    }
  }

  /** `c` is above `x` exactly when `c` is `x` or something in `c` is above `x`. */
  lemma {:induction false} ChildAbove(w: World, x: Item, c: Item)
    requires w.Ok() && x in w.t.holder && c in w.t.lists
    ensures c in w.Above(x) && c != x <==> exists y :: y in w.t.lists[c] && y in w.Above(x)
    decreases w.bound - w.rank[x]
  {
    hide Linked;
    hide NoDuplicates;
    ListFacts(w.t, c, x);
    if !w.t.holder[x].Inside? {
    } else {
      var p := w.t.holder[x].c;
      ChildAbove(w, p, c);
      if p == c { assert x in w.t.lists[c]; }
    }
  }

  /** Everything that lies in `c` at any depth is there exactly once. */
  lemma {:induction false} BelowOnce(w: World, c: Item, x: Item)
    requires w.Ok() && c in w.t.lists && x in w.t.holder
    ensures Below(w, c)[x] == if c in w.Above(x) && c != x then 1 else 0
    decreases w.rank[c], |w.t.lists[c]| + 1
  {
    hide Linked;
    ChildRanks(w.t, w.rank, w.bound, c);
    ListFacts(w.t, c, x);
    WithBelowOnce(w, c, w.t.lists[c], w.rank[c], x);
    ChildAbove(w, x, c);
  }

  lemma {:induction false} WithBelowOnce(w: World, c: Item, xs: seq<Item>, limit: nat, x: Item)
    requires w.Ok() && x in w.t.holder && NoDuplicates(xs)
    requires forall y :: y in xs ==> y in w.t.holder && w.t.holder[y] == Inside(c) && w.rank[y] < limit
    ensures WithBelow(w, xs, limit)[x] == if exists y :: y in xs && y in w.Above(x) then 1 else 0
    decreases limit, |xs|
  {
    hide Linked;
    LinkedKeys(w.t);
    if xs == [] {
    } else {
      var first, rest := xs[0], xs[1..];
      BelowOnce(w, first, x);
      WithBelowOnce(w, c, rest, limit, x);
      assert xs == [first] + rest;
      if first in w.Above(x) {
        forall y | y in rest ensures y !in w.Above(x) {
          if y in w.Above(x) { OnePath(w, x, first, y); }
        }
      }
    }
  }

  lemma {:induction false} BelowInside(w: World, c: Item)
    requires w.Ok() && c in w.t.lists
    ensures forall x :: x in Below(w, c) ==> x in w.t.holder
    decreases w.rank[c], |w.t.lists[c]| + 1
  {
    hide Linked;
    ChildRanks(w.t, w.rank, w.bound, c);
    WithBelowInside(w, w.t.lists[c], w.rank[c]);
  }

  lemma {:induction false} WithBelowInside(w: World, xs: seq<Item>, limit: nat)
    requires w.Ok() && forall y :: y in xs ==> y in w.t.holder && w.rank[y] < limit
    ensures forall x :: x in WithBelow(w, xs, limit) ==> x in w.t.holder
    decreases limit, |xs|
  {
    hide Linked;
    LinkedKeys(w.t);
    if xs == [] {
    } else {
      BelowInside(w, xs[0]);
      WithBelowInside(w, xs[1..], limit);
    }
  }

  // ---------------------------------------------------------------- breadth-first iteration

  /** What the iterator has still to visit. */
  ghost function Ahead(w: World, over: seq<Item>, cur: nat): multiset<Item>
    requires w.Ok() && OverOk(w, over, cur)
  {
    if over == [] then multiset{} else
      ChildRanks(w.t, w.rank, w.bound, over[0]);
      WithBelow(w, w.t.lists[over[0]][cur..], w.rank[over[0]]) + AllBelow(w, over[1..])
  }

  ghost function AllBelow(w: World, over: seq<Item>): multiset<Item>
    requires w.Ok() && forall c :: c in over ==> c in w.t.lists
  {
    if over == [] then multiset{} else Below(w, over[0]) + AllBelow(w, over[1..])
  }

  /** The queue holds non-empty containers only, and the cursor stands on an item of the first. */
  ghost predicate OverOk(w: World, over: seq<Item>, cur: nat) {
    && (forall c :: c in over ==> c in w.t.lists && w.t.lists[c] != [])
    && (over != [] ==> cur < |w.t.lists[over[0]]|)
  }

  lemma {:induction false} AllBelowPush(w: World, over: seq<Item>, c: Item)
    requires w.Ok() && c in w.t.lists && forall d :: d in over ==> d in w.t.lists
    ensures AllBelow(w, over + [c]) == AllBelow(w, over) + Below(w, c)
  {
    if over == [] {
      assert over + [c] == [c] && [c][1..] == [];
    } else {
      assert (over + [c])[1..] == over[1..] + [c];
      AllBelowPush(w, over[1..], c);
    }
  }

  /** The queue after `advance`. */
  ghost function Pushed(w: World, over: seq<Item>, x: Item): seq<Item>
    requires x in w.t.lists
  {
    if w.t.lists[x] != [] then over + [x] else over
  }

  /** At the start of a list, all that lies below the queue is ahead. */
  lemma AheadAtStart(w: World, over: seq<Item>)
    requires w.Ok() && OverOk(w, over, 0)
    ensures Ahead(w, over, 0) == AllBelow(w, over)
  {
    hide Linked;
    hide Ranked;
    if over != [] { assert w.t.lists[over[0]][0..] == w.t.lists[over[0]]; }
  }

  /** What is ahead, with the current item taken out. */
  lemma AheadAt(w: World, over: seq<Item>, cur: nat)
    requires w.Ok() && OverOk(w, over, cur) && over != []
    ensures var list := w.t.lists[over[0]];
            && over[0] in w.rank && (forall y :: y in list[cur + 1..] ==> y in w.t.holder && w.rank[y] < w.rank[over[0]])
            && list[cur] in w.t.lists
            && Ahead(w, over, cur) == multiset{list[cur]} + Below(w, list[cur])
                                      + WithBelow(w, list[cur + 1..], w.rank[over[0]]) + AllBelow(w, over[1..])
  {
    hide Linked;
    hide Ranked;
    hide Below;
    hide AllBelow;
    var list := w.t.lists[over[0]];
    ChildRanks(w.t, w.rank, w.bound, over[0]);
    LinkedKeys(w.t);
    assert list[cur..][0] == list[cur] && list[cur..][1..] == list[cur + 1..];
  }

  lemma PushedBelow(w: World, over: seq<Item>, x: Item)
    requires w.Ok() && x in w.t.lists && over != [] && forall d :: d in over ==> d in w.t.lists && w.t.lists[d] != []
    ensures forall d :: d in Pushed(w, over, x) ==> d in w.t.lists && w.t.lists[d] != []
    ensures AllBelow(w, Pushed(w, over, x)[1..]) == AllBelow(w, over[1..]) + Below(w, x)
  {
    hide Linked;
    hide Ranked;
    if w.t.lists[x] != [] {
      AllBelowPush(w, over[1..], x);
      assert Pushed(w, over, x)[1..] == over[1..] + [x];
    }
  }

  lemma AheadStep(w: World, over: seq<Item>, cur: nat)
    requires w.Ok() && OverOk(w, over, cur) && over != []
    ensures var x := w.t.lists[over[0]][cur];
            && x in w.t.lists
            && var over' := Pushed(w, over, x);
            if cur + 1 < |w.t.lists[over[0]]| then
              OverOk(w, over', cur + 1) && Ahead(w, over, cur) == multiset{x} + Ahead(w, over', cur + 1)
            else
              OverOk(w, over'[1..], 0) && Ahead(w, over, cur) == multiset{x} + Ahead(w, over'[1..], 0)
  {
    hide Linked;
    hide Ranked;
    hide Below;
    hide AllBelow;
    hide Ahead;
    var list := w.t.lists[over[0]];
    AheadAt(w, over, cur);
    var x := list[cur];
    PushedBelow(w, over, x);
    var over' := Pushed(w, over, x);
    if cur + 1 < |list| {
      AheadAll(w, over', cur + 1);
    } else {
      AheadAtStart(w, over'[1..]);
    }
  }

  lemma AheadAll(w: World, over: seq<Item>, cur: nat)
    requires w.Ok() && OverOk(w, over, cur) && over != []
    ensures var list := w.t.lists[over[0]];
            && over[0] in w.rank && (forall y :: y in list[cur..] ==> y in w.t.holder && w.rank[y] < w.rank[over[0]])
            && Ahead(w, over, cur) == WithBelow(w, list[cur..], w.rank[over[0]]) + AllBelow(w, over[1..])
  {
    hide Linked;
    hide Ranked;
    hide AllBelow;
    ChildRanks(w.t, w.rank, w.bound, over[0]);
  }

  lemma WorldOk(forest: Forest)
    requires forest.Valid()
    ensures WorldOf(forest).Ok()
  {
  }

  lemma IsMember(forest: Forest, x: Item)
    requires forest.Valid()
    ensures x in forest.members <==> x in forest.lists
    ensures x in forest.members <==> x in forest.holder
    ensures x in forest.members ==> x.parent == forest.holder[x]
  {
    hide Linked;
    hide Ranked;
    hide Lagging;
  }

  lemma AheadFrom(w: World, c: Item)
    requires w.Ok() && c in w.t.lists
    ensures var over := if w.t.lists[c] != [] then [c] else [];
            OverOk(w, over, 0) && Ahead(w, over, 0) == Below(w, c)
  {
    hide Linked;
    hide Ranked;
    if w.t.lists[c] != [] {
      AheadAtStart(w, [c]);
      assert [c][1..] == [];
    }
  }

  class ContainerIterator {
    var over: seq<Item>
    var cur: nat

    /** `Container::iterator`. */
    constructor (forest: Forest, c: Item)
      requires forest.Valid() && c in forest.members
      ensures Valid(forest) && Ahead(WorldOf(forest), over, cur) == Below(WorldOf(forest), c)
    {
      hide Forest.Valid;
      hide World.Ok;
      hide Ahead;
      hide Below;
      WorldOk(forest);
      forest.Contents(c);
      AheadFrom(WorldOf(forest), c);
      over, cur := if c.itemlist != [] then [c] else [], 0;
    }

    ghost predicate Valid(forest: Forest)
      reads this, forest, forest.members
    {
      forest.Valid() && OverOk(WorldOf(forest), over, cur)
    }

    predicate HasNext()
      reads this
    {
      over != []
    }

    /** `*cur`, which is always there to be read. */
    method Current(forest: Forest) returns (x: Item)
      requires Valid(forest) && HasNext()
      ensures x in forest.members && over[0] in forest.lists && x == forest.lists[over[0]][cur]
    {
      hide Linked;
      hide Ranked;
      hide Lagging;
      IsMember(forest, over[0]);
      forest.Contents(over[0]);
      x := over[0].itemlist[cur];
    }

    /** `advance`: from what was ahead, exactly the current item is now behind. */
    method Advance(forest: Forest) returns (x: Item)
      requires Valid(forest) && HasNext()
      modifies this
      ensures Valid(forest)
      ensures old(Ahead(WorldOf(forest), over, cur)) == multiset{x} + Ahead(WorldOf(forest), over, cur)
    {
      hide Forest.Valid;
      hide World.Ok;
      hide Ahead;
      WorldOk(forest);
      AheadStep(WorldOf(forest), over, cur);
      x := Current(forest);
      forest.Contents(x);
      if x.isContainer && x.itemlist != [] {
        over := over + [x];
      }
      cur := cur + 1;
      IsMember(forest, over[0]);
      forest.Contents(over[0]);
      if cur == |over[0].itemlist| {
        over := over[1..];
        cur := 0;
      }
    }
  }

  ghost function WorldOf(forest: Forest): World
    reads forest
  {
    World(forest.Shape(), forest.rank, forest.bound)
  }

  /** `getItemHoldingCount`: how many items lie in `c`, at any depth. */
  method GetItemHoldingCount(forest: Forest, c: Item) returns (counter: nat)
    requires forest.Valid() && c in forest.members
    ensures WorldOf(forest).Ok() && c in forest.lists && counter == |Below(WorldOf(forest), c)|
  {
    hide Forest.Valid;
    hide World.Ok;
    hide Ahead;
    hide Below;
    WorldOk(forest);
    forest.Contents(c);
    counter := 0;
    var it := new ContainerIterator(forest, c);
    while it.HasNext()
      invariant fresh(it) && it.Valid(forest)
      invariant counter + |Ahead(WorldOf(forest), it.over, it.cur)| == |Below(WorldOf(forest), c)|
      decreases |Ahead(WorldOf(forest), it.over, it.cur)|
    {
      var _ := it.Advance(forest);
      counter := counter + 1;
    }
    NothingAhead(WorldOf(forest), it.cur);
  }

  lemma NothingAhead(w: World, cur: nat)
    requires w.Ok()
    ensures OverOk(w, [], cur) && Ahead(w, [], cur) == multiset{}
  {
  }

  // ---------------------------------------------------------------- moving things, seen from above

  /** What lies above something depends on the holders alone, not on the ranks. */
  lemma {:induction false} AboveRankFree(w: World, w': World, x: Item)
    requires w.Ok() && w'.Ok() && w.t.holder == w'.t.holder && x in w.t.holder
    ensures w.Above(x) == w'.Above(x)
    decreases w.bound - w.rank[x]
  {
    hide Linked;
    if !w.t.holder[x].Inside? {
    } else {
      AboveRankFree(w, w', w.t.holder[x].c);
    }
  }

  lemma {:induction false} AboveTrans(w: World, x: Item, y: Item)
    requires w.Ok() && x in w.t.holder && y in w.Above(x)
    ensures w.Above(y) <= w.Above(x)
    decreases w.bound - w.rank[x]
  {
    hide Linked;
    if y == x {
    } else {
      AboveTrans(w, w.t.holder[x].c, y);
    }
  }

  /** What lies nowhere is above everything that has it above. */
  lemma {:induction false} RootAbove(w: World, x: Item, root: Item, y: Item)
    requires w.Ok() && x in w.t.holder && root in w.Above(x) && y in w.Above(x) && !w.t.holder[root].Inside?
    ensures root in w.Above(y)
    decreases w.bound - w.rank[x]
  {
    hide Linked;
    if !w.t.holder[x].Inside? || y == x {
    } else {
      RootAbove(w, w.t.holder[x].c, root, y);
    }
  }

  /** `w'` is `w` with the item `x`, which lay nowhere, put into `c`. */
  ghost predicate IsPlaced(w: World, w': World, c: Item, at: nat, x: Item) {
    && w.Ok() && w'.Ok()
    && c in w.t.lists && at <= |w.t.lists[c]| && c in w.t.holder
    && x in w.t.holder && w.t.holder[x].Nowhere? && x !in w.Above(c)
    && w'.t == Placed(w.t, c, at, x)
  }

  /** Placing `x` into `c` puts `c` and all above it above everything that has `x` above. */
  lemma {:induction false} AbovePlaced(w: World, w': World, c: Item, at: nat, x: Item, y: Item)
    requires IsPlaced(w, w', c, at, x) && y in w.t.holder
    ensures w'.Above(y) == if x in w.Above(y) then w.Above(y) + w.Above(c) else w.Above(y)
    decreases w.bound - w.rank[y]
  {
    hide Linked;
    if y == x {
      assert w'.Above(x) == {x} + w'.Above(c);
      AbovePlacedOff(w, w', c, at, x, c);
    } else if !w.t.holder[y].Inside? {
    } else {
      AbovePlaced(w, w', c, at, x, w.t.holder[y].c);
    }
  }

  lemma {:induction false} AbovePlacedOff(w: World, w': World, c: Item, at: nat, x: Item, y: Item)
    requires IsPlaced(w, w', c, at, x) && y in w.t.holder && x !in w.Above(y)
    ensures w'.Above(y) == w.Above(y)
    decreases w.bound - w.rank[y]
  {
    hide Linked;
    if !w.t.holder[y].Inside? {
    } else {
      AbovePlacedOff(w, w', c, at, x, w.t.holder[y].c);
    }
  }

  /** What placing `x` into `c` does to the contents of any `d`: `x` and all in it are added if `c` is
      `d` or lies in it, and nothing otherwise. */
  lemma BelowPlaced(w: World, w': World, c: Item, at: nat, x: Item, d: Item)
    requires IsPlaced(w, w', c, at, x) && d in w.t.lists
    ensures Below(w', d) == Below(w, d) + if d in w.Above(c) then multiset{x} + Below(w, x) else multiset{}
  {
    hide Linked;
    hide Ranked;
    hide Below;
    hide Up;
    LinkedKeys(w.t);
    BelowInside(w, d);
    BelowInside(w, x);
    BelowInside(w', d);
    var after := Below(w, d) + if d in w.Above(c) then multiset{x} + Below(w, x) else multiset{};
    forall z ensures Below(w', d)[z] == after[z] {
      if z in w.t.holder { BelowPlacedAt(w, w', c, at, x, d, z); }
    }
  }

  lemma BelowPlacedAt(w: World, w': World, c: Item, at: nat, x: Item, d: Item, z: Item)
    requires IsPlaced(w, w', c, at, x) && d in w.t.lists && z in w.t.holder && x in w.t.lists
    ensures Below(w', d)[z] == Below(w, d)[z] + if d in w.Above(c) then multiset{x}[z] + Below(w, x)[z] else 0
  {
    hide Linked;
    hide Ranked;
    hide Below;
    BelowOnce(w', d, z);
    BelowOnce(w, d, z);
    BelowOnce(w, x, z);
    AbovePlaced(w, w', c, at, x, z);
    if x in w.Above(z) && d in w.Above(c) {
      if d in w.Above(z) {
        RootAbove(w, z, x, d);
        AboveTrans(w, c, d);
        assert false;
      }
    }
  }

  lemma BelowRankFree(w: World, w': World, d: Item)
    requires w.Ok() && w'.Ok() && w.t == w'.t && d in w.t.lists
    ensures Below(w, d) == Below(w', d)
  {
    hide Linked;
    hide Ranked;
    hide Below;
    LinkedKeys(w.t);
    BelowInside(w, d);
    BelowInside(w', d);
    forall z ensures Below(w, d)[z] == Below(w', d)[z] {
      if z in w.t.holder {
        BelowOnce(w, d, z);
        BelowOnce(w', d, z);
        AboveRankFree(w, w', z);
      }
    }
  }

  /** `w'` is `w` with the item at position `at` of `c` taken out. */
  ghost predicate IsTaken(w: World, w': World, c: Item, at: nat) {
    && w.Ok() && w'.Ok()
    && c in w.t.lists && at < |w.t.lists[c]|
    && w'.t == Taken(w.t, c, at)
  }

  lemma TakenIsPlacedBack(w: World, w': World, c: Item, at: nat)
    requires IsTaken(w, w', c, at)
    ensures IsPlaced(w.(t := w'.t), w, c, at, w.t.lists[c][at])
    ensures c in w.t.holder && w.(t := w'.t).Above(c) == w.Above(c)
  {
    hide InsertAt;
    hide RemoveAt;
    hide Linked;
    hide Up;
    LinkedKeys(w.t);
    PlacedBack(w.t, c, at);
    TakenUp(w.t, w.rank, w.bound, c, at);
    NotAboveHolder(w, c, w.t.lists[c][at]);
  }

  lemma NotAboveHolder(w: World, c: Item, x: Item)
    requires w.Ok() && c in w.t.holder && x in w.t.holder && w.t.holder[x] == Inside(c)
    ensures x !in w.Above(c)
  {
  }

  lemma BelowTaken(w: World, w': World, c: Item, at: nat, d: Item)
    requires IsTaken(w, w', c, at) && d in w.t.lists
    ensures var x := w.t.lists[c][at];
            && x in w.t.lists && d in w'.t.lists && x in w'.t.lists && c in w.t.holder
            && Below(w', x) == Below(w, x)
            && Below(w, d) == Below(w', d) + if d in w.Above(c) then multiset{x} + Below(w, x) else multiset{}
  {
    hide Linked;
    hide Ranked;
    hide Up;
    hide Below;
    var x := w.t.lists[c][at];
    var out := w.(t := w'.t);
    TakenIsPlacedBack(w, w', c, at);
    LinkedKeys(w.t);
    LinkedKeys(w'.t);
    BelowRankFree(w', out, d);
    BelowRankFree(w', out, x);
    BelowPlaced(out, w, c, at, x, d);
    BelowPlaced(out, w, c, at, x, x);
  }

  // ---------------------------------------------------------------- up to the top parent

  /** What `getParent` walks over: containers, then perhaps a player, then perhaps a tile. */
  datatype Cylinder = NoCylinder | TheItem(item: Item) | ThePlayer | TheTile

  /** The cylinders above `x`, nearest first. A player stands on a tile. */
  ghost function Ladder(w: World, x: Item): seq<Cylinder>
    requires w.Ok() && x in w.t.holder
    decreases w.bound - w.rank[x]
  {
    match w.t.holder[x]
    case Nowhere => []
    case OnTile => [TheTile]
    case OnPlayer => [ThePlayer, TheTile]
    case Inside(c) => [TheItem(c)] + Ladder(w, c)
  }

  ghost function Next(w: World, y: Cylinder): Cylinder
    requires w.Ok() && (y.TheItem? ==> y.item in w.t.holder)
  {
    match y
    case TheItem(x) => Held(w.t.holder[x])
    case ThePlayer => TheTile
    case _ => NoCylinder
  }

  function Held(h: Holder): Cylinder {
    match h
    case Nowhere => NoCylinder
    case OnTile => TheTile
    case OnPlayer => ThePlayer
    case Inside(c) => TheItem(c)
  }

  /** Each rung of the ladder is the parent of the one before. */
  lemma {:induction false} LadderNext(w: World, x: Item, i: nat)
    requires w.Ok() && x in w.t.holder && i < |Ladder(w, x)|
    ensures var l := Ladder(w, x);
            && !l[i].NoCylinder?
            && (l[i].TheItem? ==> l[i].item in w.Above(x) && l[i].item != x)
            && Next(w, l[i]) == if i + 1 < |l| then l[i + 1] else NoCylinder
    decreases w.bound - w.rank[x]
  {
    hide Linked;
    if !w.t.holder[x].Inside? {
    } else {
      var c := w.t.holder[x].c;
      if i > 0 {
        LadderNext(w, c, i - 1);
      } else {
        LadderFirst(w, c);
      }
    }
  }

  lemma LadderFirst(w: World, x: Item)
    requires w.Ok() && x in w.t.holder
    ensures Held(w.t.holder[x]) == if |Ladder(w, x)| > 0 then Ladder(w, x)[0] else NoCylinder
  {
  }

  /** The ladder has every item above `x`, and no other. */
  lemma {:induction false} LadderIsAbove(w: World, x: Item, y: Item)
    requires w.Ok() && x in w.t.holder
    ensures TheItem(y) in Ladder(w, x) <==> y in w.Above(x) && y != x
    decreases w.bound - w.rank[x]
  {
    hide Linked;
    if !w.t.holder[x].Inside? {
    } else {
      LadderIsAbove(w, w.t.holder[x].c, y);
    }
  }

  /** `getTopParent`: of `x` itself, if it is a container, and all above it, the last but one. */
  ghost function TopOf(w: World, x: Item): Cylinder
    requires w.Ok() && x in w.t.holder
  {
    var l := (if x.isContainer then [TheItem(x)] else []) + Ladder(w, x);
    if |l| == 0 then NoCylinder else if |l| == 1 then l[0] else l[|l| - 2]
  }

  lemma TopIsAbove(w: World, x: Item)
    requires w.Ok() && x in w.t.holder
    ensures TopOf(w, x).TheItem? ==> TopOf(w, x).item in w.Above(x)
    ensures x.isContainer ==> !TopOf(w, x).NoCylinder?
  {
    hide Linked;
    var l := Ladder(w, x);
    if |l| >= 2 {
      LadderNext(w, x, |l| - 2);
    } else if |l| == 1 {
      LadderNext(w, x, 0);
    }
  }

  /** Where the ladder ends, by where the outermost thing lies. */
  lemma {:induction false} LadderEnds(w: World, x: Item, y: Item)
    requires w.Ok() && x in w.t.holder && y in w.Above(x)
    ensures var l := Ladder(w, x);
            && (w.t.holder[y].OnTile? ==>
                  |l| > 0 && l[|l| - 1] == TheTile && (if y == x then |l| == 1 else |l| > 1 && l[|l| - 2] == TheItem(y)))
            && (w.t.holder[y].OnPlayer? ==> |l| > 1 && l[|l| - 1] == TheTile && l[|l| - 2] == ThePlayer)
            && (w.t.holder[y].Nowhere? ==> if y == x then l == [] else |l| > 0 && l[|l| - 1] == TheItem(y))
    decreases w.bound - w.rank[x]
  {
    hide Linked;
    if !w.t.holder[x].Inside? {
    } else {
      var c := w.t.holder[x].c;
      if y == x {
      } else {
        LadderEnds(w, c, y);
      }
    }
  }

  lemma {:induction false} LadderBeforeRoot(w: World, x: Item, z: Item)
    requires w.Ok() && x in w.t.holder && z in w.Above(x) && w.t.holder[z].Inside?
    requires w.t.holder[z].c in w.t.holder && w.t.holder[w.t.holder[z].c].Nowhere?
    ensures var l := Ladder(w, x);
            if z == x then l == [TheItem(w.t.holder[z].c)] else |l| > 1 && l[|l| - 2] == TheItem(z)
    decreases w.bound - w.rank[x]
  {
    hide Linked;
    var c := w.t.holder[x].c;
    if z == x {
      assert Ladder(w, c) == [];
    } else {
      LadderBeforeRoot(w, c, z);
    }
  }

  /** The top parent, by what is above: what stands on a tile, the player who carries it, and where it lies nowhere the
      outermost but one. Only a container is its own top parent. */
  lemma TopByPlace(w: World, x: Item, y: Item)
    requires w.Ok() && x in w.t.holder && y in w.Above(x)
    ensures w.t.holder[y].OnTile? ==> TopOf(w, x) == if y == x && !x.isContainer then TheTile else TheItem(y)
    ensures w.t.holder[y].OnPlayer? ==> TopOf(w, x) == ThePlayer
    ensures w.t.holder[y].Nowhere? && y == x ==> TopOf(w, x) == if x.isContainer then TheItem(x) else NoCylinder
    ensures w.t.holder[y].Inside? && w.t.holder[y].c in w.t.holder && w.t.holder[w.t.holder[y].c].Nowhere? ==>
              TopOf(w, x) == if y == x && !x.isContainer then TheItem(w.t.holder[y].c) else TheItem(y)
  {
    hide Linked;
    hide Ranked;
    hide Ladder;
    hide Up;
    LadderEnds(w, x, y);
    if w.t.holder[y].Inside? && w.t.holder[y].c in w.t.holder && w.t.holder[w.t.holder[y].c].Nowhere? {
      LadderBeforeRoot(w, x, y);
    }
  }

  /** `getParent`. */
  method ParentOf(forest: Forest, y: Cylinder) returns (p: Cylinder)
    requires forest.Valid() && (y.TheItem? ==> y.item in forest.members)
    ensures WorldOf(forest).Ok() && (y.TheItem? ==> y.item in forest.holder) && p == Next(WorldOf(forest), y)
  {
    hide Linked;
    hide Ranked;
    hide Lagging;
    if y.TheItem? { forest.ItemTied(y.item); }
    p := match y
         case TheItem(x) => Held(x.parent)
         case ThePlayer => TheTile
         case _ => NoCylinder;
  }

  lemma TopIsWhatStands(w: World, x: Item)
    requires w.Ok() && x in w.t.holder
    ensures forall y :: y in w.Above(x) && w.t.holder[y].OnTile? ==>
                          TopOf(w, x) == if y == x && !x.isContainer then TheTile else TheItem(y)
    ensures forall y :: y in w.Above(x) && w.t.holder[y].OnPlayer? ==> TopOf(w, x) == ThePlayer
  {
    hide Linked;
    hide Ranked;
    hide TopOf;
    forall y | y in w.Above(x) && (w.t.holder[y].OnTile? || w.t.holder[y].OnPlayer?)
      ensures w.t.holder[y].OnTile? ==> TopOf(w, x) == if y == x && !x.isContainer then TheTile else TheItem(y)
      ensures w.t.holder[y].OnPlayer? ==> TopOf(w, x) == ThePlayer
    {
      TopByPlace(w, x, y);
    }
  }

  method GetTopParent(forest: Forest, x: Item) returns (top: Cylinder)
    requires forest.Valid() && x in forest.members
    ensures WorldOf(forest).Ok() && x in forest.holder && top == TopOf(WorldOf(forest), x)
    ensures forall y :: y in WorldOf(forest).Above(x) && forest.holder[y].OnTile? ==>
                          top == if y == x && !x.isContainer then TheTile else TheItem(y)
    ensures forall y :: y in WorldOf(forest).Above(x) && forest.holder[y].OnPlayer? ==> top == ThePlayer
  {
    hide Forest.Valid;
    hide World.Ok;
    hide Ladder;
    hide World.Above;
    ghost var w := WorldOf(forest);
    WorldOk(forest);
    IsMember(forest, x);
    ghost var l := Ladder(w, x);
    LadderFirst(w, x);
    var aux := ParentOf(forest, TheItem(x));
    var prevaux := if x.isContainer then TheItem(x) else NoCylinder;
    if aux.NoCylinder? {
      if |l| > 0 { LadderNext(w, x, 0); }
      TopIsWhatStands(w, x);
      return prevaux;
    }
    ghost var i: nat := 0;
    InMembers(forest, x, 0);
    var next := ParentOf(forest, aux);
    LadderNext(w, x, 0);
    while !next.NoCylinder?
      invariant i < |l| && aux == l[i] && (aux.TheItem? ==> aux.item in w.t.holder) && next == Next(w, aux)
      invariant prevaux == if i > 0 then l[i - 1] else if x.isContainer then TheItem(x) else NoCylinder
      decreases |l| - i
    {
      LadderNext(w, x, i);
      prevaux, aux := aux, next;
      i := i + 1;
      InMembers(forest, x, i);
      next := ParentOf(forest, aux);
    }
    LadderNext(w, x, i);
    if i + 1 < |l| { LadderNext(w, x, i + 1); }
    if i > 0 { LadderNext(w, x, i - 1); }
    top := if prevaux.NoCylinder? then aux else prevaux;
    TopIsWhatStands(w, x);
  }

  lemma InMembers(forest: Forest, x: Item, i: nat)
    requires forest.Valid() && x in forest.members && x in forest.holder && WorldOf(forest).Ok()
    ensures var l := Ladder(WorldOf(forest), x);
            i < |l| && l[i].TheItem? ==> l[i].item in forest.members
  {
    hide Linked;
    hide Ranked;
    hide Lagging;
    if i < |Ladder(WorldOf(forest), x)| {
      LadderNext(WorldOf(forest), x, i);
      forest.ItemTied(x);
    }
  }

  // ---------------------------------------------------------------- may it be added?

  datatype SubType = Plain | DepotChest | Inbox | StoreInbox | OtherContainer

  datatype Traits = Traits(sub: SubType, unlocked: bool, paginated: bool, pickupable: bool, storeItem: bool,
                           quiver: bool, ammo: bool, stackable: bool, count: nat, maxDepotItems: nat)

  datatype ReturnValue =
    NoError | NotPossible | CannotPickup | ThisIsImpossible | QuiverAmmoOnly | ItemCannotBeMovedThere
    | CannotMoveItemIsNotStoreItem | ContainerNotEnoughRoom | PlayerIsNotInvited | DepotIsFull | Elsewhere

  /** One question: may `thing` (null for something that is no item) be added at `index`, `count` of
      it? `stranger` says that the house rule refuses the actor; `outside` is the answer of a top
      parent that is neither a plain container nor a depot chest. */
  datatype Query = Query(thing: Item?, index: int, count: nat, noLimit: bool, childIsOwner: bool,
                         stranger: bool, outside: ReturnValue)

  type AllTraits = map<Item, Traits>

  /** How many items more the depot counts on. */
  ghost function AddCount(w: World, traits: AllTraits, depot: Item, item: Item, count: nat): nat
    requires w.Ok() && item in w.t.lists && item in w.t.holder && item in traits
  {
    if TopOf(w, item) != TheItem(depot) then
      if item.isContainer then |Below(w, item)| + 1 else 1
    else if traits[item].stackable && traits[item].count != count then 1 else 0
  }

  ghost predicate DepotHasRoom(w: World, traits: AllTraits, depot: Item, q: Query)
    requires w.Ok() && depot in w.t.lists && depot in traits
    requires q.thing != null ==> q.thing in w.t.lists && q.thing in w.t.holder && q.thing in traits
  {
    && q.thing != null
    && (q.noLimit || |Below(w, depot)| + AddCount(w, traits, depot, q.thing, q.count) <= traits[depot].maxDepotItems)
  }

  /** What the container itself, and those above it, have to say. */
  ghost predicate Fits(w: World, traits: AllTraits, c: Item, q: Query)
    requires w.Ok() && w.t.lists.Keys == traits.Keys && c in w.t.lists && c in w.t.holder && q.thing != null && q.thing in traits
    requires w.Above(c) <= traits.Keys
  {
    var mine, its := traits[c], traits[q.thing];
    && mine.unlocked && its.pickupable
    && (mine.quiver ==> its.ammo)
    && (its.storeItem ==> mine.sub == DepotChest)
    && !(mine.storeItem && w.t.holder[c].Inside? && w.t.holder[c].c in traits && traits[w.t.holder[c].c].sub == StoreInbox)
    && q.thing !in w.Above(c)
    && (q.noLimit || ((forall y :: y in w.Above(c) && y != c ==> traits[y].sub != Inbox)
                      && (q.index == -1 ==> |w.t.lists[c]| < c.capacity || mine.paginated)))
  }

  ghost predicate TopAdmits(w: World, traits: AllTraits, c: Item, q: Query)
    requires w.Ok() && w.t.lists.Keys == traits.Keys && c in w.t.lists && c in w.t.holder
    requires q.thing != null && q.thing in w.t.lists && q.thing in w.t.holder
  {
    var top := TopOf(w, c);
    top == TheItem(c) ||
    if top.TheItem? && top.item in traits && traits[top.item].sub == Plain then true
    else if top.TheItem? && top.item in traits && traits[top.item].sub == DepotChest then DepotHasRoom(w, traits, top.item, q)
    else q.outside == NoError
  }

  /** The depot's limit, as `DepotChest::queryAdd` puts it. */
  method DepotIsOverfull(forest: Forest, traits: AllTraits, depot: Item, item: Item, count: nat) returns (full: bool)
    requires forest.Valid() && traits.Keys == forest.members && depot in traits && item in traits
    ensures var w := WorldOf(forest);
            && w.Ok() && depot in w.t.lists && item in w.t.lists && item in w.t.holder
            && full == (|Below(w, depot)| + AddCount(w, traits, depot, item, count) > traits[depot].maxDepotItems)
    ensures depot !in WorldOf(forest).Above(item) ==>
              full == (|Below(WorldOf(forest), depot)| + 1 + |Below(WorldOf(forest), item)| > traits[depot].maxDepotItems)
    ensures depot in WorldOf(forest).Above(item) && depot.isContainer && forest.holder[depot].OnTile? ==>
              full == (|Below(WorldOf(forest), depot)| + (if traits[item].stackable && traits[item].count != count then 1 else 0)
                       > traits[depot].maxDepotItems)
  {
    hide Linked;
    hide Ranked;
    hide Lagging;
    hide Forest.Tied;
    hide TopOf;
    hide Below;
    hide Up;
    AddCountIs(forest, traits, depot, item, count);
    forest.ItemTied(item);
    forest.ItemTied(depot);
    var addCount := 0;
    if traits[item].stackable && traits[item].count != count {
      addCount := 1;
    }
    var top := GetTopParent(forest, item);
    if top != TheItem(depot) {
      if item.isContainer {
        var held := GetItemHoldingCount(forest, item);
        addCount := held + 1;
      } else {
        addCount := 1;
      }
    }
    var holding := GetItemHoldingCount(forest, depot);
    full := holding + addCount > traits[depot].maxDepotItems;
  }

  /** What is not in the chest counts with all it holds; of what is, part of a stack counts as one more, and the rest not
      at all. */
  lemma AddCountIs(forest: Forest, traits: AllTraits, depot: Item, item: Item, count: nat)
    requires forest.Valid() && traits.Keys == forest.members && depot in traits && item in traits
    ensures WorldOf(forest).Ok() && item in forest.lists && item in forest.holder && depot in forest.holder
    ensures var w := WorldOf(forest);
            depot !in w.Above(item) ==> AddCount(w, traits, depot, item, count) == 1 + |Below(w, item)|
    ensures var w := WorldOf(forest);
            depot in w.Above(item) && depot.isContainer && forest.holder[depot].OnTile? ==>
              AddCount(w, traits, depot, item, count) == if traits[item].stackable && traits[item].count != count then 1 else 0
  {
    hide Forest.Valid;
    hide World.Ok;
    hide Below;
    hide Up;
    var w := WorldOf(forest);
    WorldOk(forest);
    AllTraitsTied(forest, traits);
    AddCountCovers(w, traits, depot, item, count);
    if depot in w.Above(item) { TopByPlace(w, item, depot); }
    hide TopOf;
  }

  ghost predicate ClearAbove(w: World, traits: AllTraits, c: Item, thing: Item, noLimit: bool)
    requires w.Ok() && c in w.t.holder && w.t.holder.Keys == traits.Keys
  {
    forall y :: y in w.Above(c) && y != c ==> y != thing && (noLimit || traits[y].sub != Inbox)
  }

  predicate RungOk(traits: AllTraits, y: Cylinder, thing: Item, noLimit: bool) {
    y.TheItem? ==> y.item in traits && y.item != thing && (noLimit || traits[y.item].sub != Inbox)
  }

  ghost predicate ClearRungs(w: World, traits: AllTraits, c: Item, thing: Item, noLimit: bool, n: nat)
    requires w.Ok() && c in w.t.holder
  {
    forall i: nat :: i < n && i < |Ladder(w, c)| ==> RungOk(traits, Ladder(w, c)[i], thing, noLimit)
  }

  lemma Rung(w: World, traits: AllTraits, c: Item, thing: Item, noLimit: bool, i: nat)
    requires w.Ok() && c in w.t.holder && i < |Ladder(w, c)|
    ensures var ok := RungOk(traits, Ladder(w, c)[i], thing, noLimit);
            && (!ok ==> !ClearRungs(w, traits, c, thing, noLimit, |Ladder(w, c)|))
            && (ok && ClearRungs(w, traits, c, thing, noLimit, i) ==> ClearRungs(w, traits, c, thing, noLimit, i + 1))
  {
  }

  /** Rung by rung, or by what is above. */
  lemma ClearMeans(w: World, traits: AllTraits, c: Item, thing: Item, noLimit: bool)
    requires w.Ok() && c in w.t.holder && w.t.holder.Keys == traits.Keys
    ensures ClearAbove(w, traits, c, thing, noLimit) <==> ClearRungs(w, traits, c, thing, noLimit, |Ladder(w, c)|)
  {
    hide Linked;
    hide Ranked;
    hide Ladder;
    var l := Ladder(w, c);
    if ClearAbove(w, traits, c, thing, noLimit) {
      forall i: nat | i < |l| ensures RungOk(traits, l[i], thing, noLimit) { LadderNext(w, c, i); }
    }
    if ClearRungs(w, traits, c, thing, noLimit, |l|) {
      forall y | y in w.Above(c) && y != c ensures y != thing && (noLimit || traits[y].sub != Inbox) {
        LadderIsAbove(w, c, y);
        var i: nat :| i < |l| && l[i] == TheItem(y);
        assert RungOk(traits, l[i], thing, noLimit);
      }
    }
  }

  /** The walk up from `c`: is `thing` one of the holders, or (limits count) is one of them an inbox? */
  method WalkUp(forest: Forest, traits: AllTraits, c: Item, thing: Item, noLimit: bool) returns (r: ReturnValue)
    requires forest.Valid() && traits.Keys == forest.members && c in traits
    ensures var w := WorldOf(forest);
            && w.Ok() && c in w.t.holder && w.t.holder.Keys == traits.Keys
            && (r == NoError <==> ClearAbove(w, traits, c, thing, noLimit))
    ensures r in {NoError, ThisIsImpossible, ContainerNotEnoughRoom} && (noLimit ==> r != ContainerNotEnoughRoom)
    ensures var w := WorldOf(forest);
            && (r == ThisIsImpossible ==> thing in w.Above(c) && thing != c)
            && (r == ContainerNotEnoughRoom ==> exists y :: y in traits && y in w.Above(c) && y != c && traits[y].sub == Inbox)
  {
    hide Forest.Valid;
    hide World.Ok;
    hide ClearRungs;
    hide ClearAbove;
    hide Ladder;
    ghost var w := WorldOf(forest);
    WorldOk(forest);
    AllTraitsTied(forest, traits);
    ClearMeans(w, traits, c, thing, noLimit);
    LadderFirst(w, c);
    ghost var i: nat := 0;
    ghost var l := Ladder(w, c);
    NoRungs(w, traits, c, thing, noLimit);
    var cylinder := ParentOf(forest, TheItem(c));
    while !cylinder.NoCylinder?
      invariant i <= |l| && cylinder == if i < |l| then l[i] else NoCylinder
      invariant ClearRungs(w, traits, c, thing, noLimit, i)
      decreases |l| - i
    {
      LadderNext(w, c, i);
      InMembers(forest, c, i);
      Rung(w, traits, c, thing, noLimit, i);
      if cylinder == TheItem(thing) {
        return ThisIsImpossible;
      }
      if !noLimit && cylinder.TheItem? && traits[cylinder.item].sub == Inbox {
        return ContainerNotEnoughRoom;
      }
      cylinder := ParentOf(forest, cylinder);
      i := i + 1;
    }
    if i < |l| { LadderNext(w, c, i); }
    r := NoError;
  }

  lemma NoRungs(w: World, traits: AllTraits, c: Item, thing: Item, noLimit: bool)
    requires w.Ok() && c in w.t.holder
    ensures ClearRungs(w, traits, c, thing, noLimit, 0)
  {
  }

  lemma AllTraitsTied(forest: Forest, traits: AllTraits)
    requires forest.Valid() && traits.Keys == forest.members
    ensures forest.holder.Keys == traits.Keys && forest.lists.Keys == traits.Keys
  {
  }

  /** The first part of `Container::queryAdd`: what `c` and all above it say. */
  method QueryHere(forest: Forest, traits: AllTraits, c: Item, q: Query) returns (r: ReturnValue)
    requires forest.Valid() && traits.Keys == forest.members && c in traits
    requires q.thing != null ==> q.thing in traits
    requires traits[c].storeItem ==> !c.parent.Nowhere?
    ensures var w := WorldOf(forest);
            && w.Ok() && w.t.lists.Keys == w.t.holder.Keys == traits.Keys
            && (r == NoError <==> q.thing != null && Fits(w, traits, c, q))
    ensures !traits[c].unlocked || q.thing == null ==> r == NotPossible
    ensures traits[c].unlocked && q.thing != null ==>
              var mine, its, w := traits[c], traits[q.thing], WorldOf(forest);
              if !its.pickupable then r == CannotPickup
              else if q.thing == c then r == ThisIsImpossible
              else if mine.quiver && !its.ammo then r == QuiverAmmoOnly
              else if its.storeItem && mine.sub != DepotChest then r == ItemCannotBeMovedThere
              else if mine.storeItem && (exists y :: y in traits && w.t.holder[c] == Inside(y) && traits[y].sub == StoreInbox) then
                r == if its.storeItem then ItemCannotBeMovedThere else CannotMoveItemIsNotStoreItem
              else
                && r in {NoError, ThisIsImpossible, ContainerNotEnoughRoom}
                && (r == ThisIsImpossible ==> q.thing in w.Above(c))
                && (q.thing in w.Above(c) ==> r == ThisIsImpossible || (r == ContainerNotEnoughRoom && !q.noLimit))
                && (r == ContainerNotEnoughRoom ==> !q.noLimit)
                && (r == ContainerNotEnoughRoom ==>
                      || (exists y :: y in traits && y in w.Above(c) && y != c && traits[y].sub == Inbox)
                      || (q.index == -1 && |w.t.lists[c]| >= c.capacity && !mine.paginated))
  {
    hide Forest.Valid;
    hide World.Ok;
    ghost var w := WorldOf(forest);
    WorldOk(forest);
    AllTraitsTied(forest, traits);
    TraitsOf(forest, traits, c);
    var mine := traits[c];
    if !mine.unlocked { return NotPossible; }
    if q.thing == null { return NotPossible; }
    var its := traits[q.thing];
    if !its.pickupable { return CannotPickup; }
    if q.thing == c { return ThisIsImpossible; }
    if mine.quiver && !its.ammo { return QuiverAmmoOnly; }
    if its.storeItem && mine.sub != DepotChest { return ItemCannotBeMovedThere; }
    if mine.storeItem && c.parent.Inside? && traits[c.parent.c].sub == StoreInbox {
      return if its.storeItem then ItemCannotBeMovedThere else CannotMoveItemIsNotStoreItem;
    }
    r := WalkUp(forest, traits, c, q.thing, q.noLimit);
    if r == NoError && !q.noLimit && q.index == -1 && |c.itemlist| >= c.capacity && !mine.paginated {
      return ContainerNotEnoughRoom;
    }
  }

  lemma TraitsOf(forest: Forest, traits: AllTraits, c: Item)
    requires forest.Valid() && traits.Keys == forest.members && c in traits
    ensures c in forest.lists && c in forest.holder && c.itemlist == forest.lists[c] && c.parent == forest.holder[c]
    ensures c.parent.Inside? ==> c.parent.c in traits
  {
    hide Linked;
    hide Lagging;
    forest.ItemTied(c);
  }

  /** `Container::queryAdd`, inherited by the depot chest. */
  method QueryAdd(forest: Forest, traits: AllTraits, c: Item, q: Query) returns (r: ReturnValue)
    requires forest.Valid() && traits.Keys == forest.members && c in traits
    requires q.thing != null ==> q.thing in traits
    requires traits[c].storeItem && !q.childIsOwner ==> !c.parent.Nowhere?
    ensures var w := WorldOf(forest);
            && w.Ok() && w.t.lists.Keys == w.t.holder.Keys == traits.Keys
            && (r == NoError <==>
                q.childIsOwner
                || (q.thing != null && Fits(w, traits, c, q) && !q.stranger && TopAdmits(w, traits, c, q)))
    decreases if q.childIsOwner then 0 else 1, 0
  {
    hide Forest.Valid;
    hide World.Ok;
    hide Fits;
    hide TopOf;
    hide AddCount;
    WorldOk(forest);
    AllTraitsTied(forest, traits);
    if q.childIsOwner { return NoError; }
    r := QueryHere(forest, traits, c, q);
    if r != NoError { return; }
    var top := GetTopParent(forest, c);
    TopIsAbove(WorldOf(forest), c);
    if q.stranger { return PlayerIsNotInvited; }
    if top == TheItem(c) { return NoError; }
    if top.TheItem? && traits[top.item].sub == Plain { return NoError; }
    if top.TheItem? && traits[top.item].sub == DepotChest {
      r := DepotQueryAdd(forest, traits, top.item, q.(childIsOwner := true, index := -1));
    } else {
      r := q.outside;
    }
  }

  /** `DepotChest::queryAdd`, asked directly or on behalf of a container inside the chest. */
  method DepotQueryAdd(forest: Forest, traits: AllTraits, depot: Item, q: Query) returns (r: ReturnValue)
    requires forest.Valid() && traits.Keys == forest.members && depot in traits
    requires q.thing != null ==> q.thing in traits
    requires traits[depot].storeItem && !q.childIsOwner ==> !depot.parent.Nowhere?
    ensures var w := WorldOf(forest);
            && w.Ok() && w.t.lists.Keys == w.t.holder.Keys == traits.Keys
            && (r == NoError <==>
                && DepotHasRoom(w, traits, depot, q)
                && (q.childIsOwner || (Fits(w, traits, depot, q) && !q.stranger && TopAdmits(w, traits, depot, q))))
    ensures q.thing == null ==> r == NotPossible
    ensures var w := WorldOf(forest);
            q.thing != null && !q.noLimit && depot !in w.Above(q.thing) ==>
              |Below(w, depot)| + 1 + |Below(w, q.thing)| > traits[depot].maxDepotItems ==> r == DepotIsFull
    ensures q.thing != null && q.childIsOwner ==> r in {NoError, DepotIsFull} && (q.noLimit ==> r == NoError)
    decreases if q.childIsOwner then 0 else 1, 1
  {
    hide Linked;
    hide Ranked;
    hide Lagging;
    hide Forest.Tied;
    hide AddCount;
    hide Below;
    hide Fits;
    hide TopAdmits;
    AllTraitsTied(forest, traits);
    if q.thing == null { return NotPossible; }
    if !q.noLimit {
      var full := DepotIsOverfull(forest, traits, depot, q.thing, q.count);
      if full { return DepotIsFull; }
    }
    r := QueryAdd(forest, traits, depot, q);
  }

  /** May the thing be added to `c`, as the class of `c` answers? */
  ghost predicate Admits(w: World, traits: AllTraits, c: Item, q: Query)
    requires w.Ok() && w.t.lists.Keys == w.t.holder.Keys == traits.Keys && c in traits && (q.thing != null ==> q.thing in traits)
  {
    var here := q.childIsOwner
                || (q.thing != null && w.Above(c) <= traits.Keys && Fits(w, traits, c, q) && !q.stranger && TopAdmits(w, traits, c, q));
    if traits[c].sub == DepotChest then DepotHasRoom(w, traits, c, q) && here else here
  }

  /** A yes within limits keeps a depot chest within its own, wherever inside the chest the thing is to go, if the
      chest stands on a tile: what it holds, the thing and all in that stay within the limit, unless the thing is in
      the chest already. */
  lemma AdmittedStaysWithin(w: World, traits: AllTraits, depot: Item, c: Item, q: Query)
    requires w.Ok() && w.t.lists.Keys == w.t.holder.Keys == traits.Keys && c in traits && (q.thing != null ==> q.thing in traits)
    requires Admits(w, traits, c, q) && !q.childIsOwner && !q.noLimit && c.isContainer
    requires depot in w.Above(c) && w.t.holder[depot].OnTile? && traits[depot].sub == DepotChest
    ensures q.thing != null && q.thing !in w.Above(c)
    ensures depot in w.Above(q.thing) || |Below(w, depot)| + 1 + |Below(w, q.thing)| <= traits[depot].maxDepotItems
    ensures traits[q.thing].stackable && traits[q.thing].count != q.count ==> |Below(w, depot)| + 1 <= traits[depot].maxDepotItems
  {
    hide Linked;
    hide Ranked;
    hide Up;
    hide TopOf;
    hide Below;
    hide AddCount;
    TopByPlace(w, c, depot);
    AddCountCovers(w, traits, depot, q.thing, q.count);
  }

  /** Nobody asks a chest that lies nowhere: what is directly inside it is its own top parent, and admits all that fits. */
  lemma UnplacedChestIsNotAsked(w: World, traits: AllTraits, depot: Item, c: Item, q: Query)
    requires w.Ok() && w.t.lists.Keys == w.t.holder.Keys == traits.Keys && c in traits && q.thing != null && q.thing in traits
    requires w.t.holder[c] == Inside(depot) && depot in traits && w.t.holder[depot].Nowhere? && c.isContainer
    requires traits[c].sub != DepotChest
    ensures w.Above(c) <= traits.Keys
    ensures Admits(w, traits, c, q) <==> q.childIsOwner || (Fits(w, traits, c, q) && !q.stranger)
  {
    hide Linked;
    hide Up;
    hide TopOf;
    hide Fits;
    TopByPlace(w, c, c);
  }

  lemma AboveKeys(w: World, c: Item)
    requires w.Ok() && c in w.t.holder
    ensures w.Above(c) <= w.t.holder.Keys
  {
  }

  /** `queryAdd`, by the class of the container. */
  method Ask(forest: Forest, traits: AllTraits, c: Item, q: Query) returns (r: ReturnValue)
    requires forest.Valid() && traits.Keys == forest.members && c in traits
    requires q.thing != null ==> q.thing in traits
    requires traits[c].storeItem && !q.childIsOwner ==> !c.parent.Nowhere?
    ensures var w := WorldOf(forest);
            && w.Ok() && w.t.lists.Keys == w.t.holder.Keys == traits.Keys
            && (r == NoError <==> Admits(w, traits, c, q))
    ensures var w := WorldOf(forest);
            r == NoError && !q.childIsOwner && !q.noLimit && c.isContainer ==>
              forall depot :: depot in w.Above(c) && w.t.holder[depot].OnTile? && traits[depot].sub == DepotChest ==>
                q.thing != null && (depot in w.Above(q.thing) || |Below(w, depot)| + 1 + |Below(w, q.thing)| <= traits[depot].maxDepotItems)
  {
    hide Forest.Valid;
    hide World.Ok;
    hide Up;
    hide Fits;
    hide TopAdmits;
    hide Below;
    ghost var w := WorldOf(forest);
    WorldOk(forest);
    AllTraitsTied(forest, traits);
    AboveKeys(w, c);
    if traits[c].sub == DepotChest {
      r := DepotQueryAdd(forest, traits, c, q);
    } else {
      r := QueryAdd(forest, traits, c, q);
    }
    if r == NoError && !q.childIsOwner && !q.noLimit && c.isContainer {
      forall depot | depot in w.Above(c) && w.t.holder[depot].OnTile? && traits[depot].sub == DepotChest
        ensures q.thing != null && (depot in w.Above(q.thing) || |Below(w, depot)| + 1 + |Below(w, q.thing)| <= traits[depot].maxDepotItems)
      {
        AdmittedStaysWithin(w, traits, depot, c, q);
      }
    }
  }

  /** Taking something out that is not above `c` changes nothing above `c`. */
  lemma TakenLeavesAbove(w: World, w': World, from: Item, at: nat, c: Item)
    requires IsTaken(w, w', from, at) && c in w.t.holder && w.t.lists[from][at] in w.t.holder
    requires w.t.lists[from][at] !in w.Above(c)
    ensures c in w'.t.holder && w'.Above(c) == w.Above(c)
  {
    hide Linked;
    hide Ranked;
    hide Up;
    var x, out := w.t.lists[from][at], w.(t := w'.t);
    PlacedBack(w.t, from, at);
    TakenIsPlacedBack(w, w', from, at);
    AbovePlaced(out, w, from, at, x, c);
    AboveRankFree(w', out, c);
  }

  /** `t'` is `t` with `item` taken from place `k` of `from` and put in front in `c`, if
      the index is not past the capacity. */
  ghost predicate IsMoved(t: Tree, from: Item, k: nat, c: Item, index: int, item: Item, t': Tree) {
    && from in t.lists && k < |t.lists[from]| && t.lists[from][k] == item
    && c in Taken(t, from, k).lists
    && t' == if index >= c.capacity then Taken(t, from, k) else Placed(Taken(t, from, k), c, 0, item)
  }

  lemma TakenLiesNowhere(t: Tree, from: Item, k: nat)
    requires from in t.lists && k < |t.lists[from]|
    ensures var x, t' := t.lists[from][k], Taken(t, from, k);
            x in t'.holder && t'.holder[x] == Nowhere
  {
  }

  /** The containers' part of moving a whole item from one container to another: ask, take out, put in.
      An admitted item is never put into itself or into anything it holds. */
  method MoveItem(forest: Forest, traits: AllTraits, from: Item, c: Item, index: int, item: Item, q: Query)
    returns (r: ReturnValue)
    requires forest.Valid() && traits.Keys == forest.members && from in traits && c in traits && item in traits
    requires c.isContainer && item.parent == Inside(from)
    requires q.thing == item && !q.childIsOwner && (traits[c].storeItem ==> !c.parent.Nowhere?)
    modifies forest, forest.members
    ensures forest.Valid()
    ensures r != NoError ==> forest.Shape() == old(forest.Shape())
    ensures r == NoError ==>
              && item !in old(WorldOf(forest).Above(c))
              && (exists k :: IsMoved(old(forest.Shape()), from, k, c, index, item, forest.Shape()))
    ensures r == NoError ==> item in forest.holder && forest.holder[item] == if index < c.capacity then Inside(c) else Nowhere
    ensures r == NoError ==> c in forest.lists && from in forest.lists && c in old(forest.lists) && from in old(forest.lists)
    ensures r == NoError && index < c.capacity ==> forest.lists[c] != [] && forest.lists[c][0] == item
    ensures r == NoError && from != c ==>
              && multiset(old(forest.lists)[from]) == multiset{item} + multiset(forest.lists[from])
              && forest.lists[c] == (if index < c.capacity then [item] else []) + old(forest.lists)[c]
    ensures r == NoError ==> forest.lists == old(forest.lists)[from := forest.lists[from]][c := forest.lists[c]]
  {
    hide Forest.Valid;
    hide World.Ok;
    hide Fits;
    hide TopAdmits;
    hide DepotHasRoom;
    hide Below;
    hide Forest.Above;
    hide Taken;
    hide Placed;
    ghost var w := WorldOf(forest);
    WorldOk(forest);
    Lying(forest, from, item);
    r := Ask(forest, traits, c, q);
    if r != NoError { return; }
    FitsIsNotAbove(w, traits, c, q);
    ghost var k :| 0 <= k < |forest.lists[from]| && forest.lists[from][k] == item;
    forest.RemoveThing(from, item, false, 0);
    TakenLiesNowhere(w.t, from, k);
    IsMember(forest, item);
    WorldOk(forest);
    TakenLeavesAbove(w, WorldOf(forest), from, k, c);
    AboveIs(forest, c);
    forest.AddThing(c, index, item);
    assert IsMoved(w.t, from, k, c, index, item, forest.Shape());
    MovedMeans(w.t, from, k, c, index, item, forest.Shape());
  }

  lemma MovedMeans(t: Tree, from: Item, k: nat, c: Item, index: int, item: Item, t': Tree)
    requires IsMoved(t, from, k, c, index, item, t') && c in t.lists
    ensures c in t'.lists && from in t'.lists && item in t'.holder && t'.lists.Keys == t.lists.Keys
    ensures t'.holder[item] == if index < c.capacity then Inside(c) else Nowhere
    ensures index < c.capacity ==> t'.lists[c] != [] && t'.lists[c][0] == item
    ensures t'.lists == t.lists[from := t'.lists[from]][c := t'.lists[c]]
    ensures from != c ==> multiset(t.lists[from]) == multiset{item} + multiset(t'.lists[from])
    ensures from != c ==> t'.lists[c] == (if index < c.capacity then [item] else []) + t.lists[c]
  {
    var l := t.lists[from];
    assert l == l[..k] + [item] + l[k + 1..];
  }

  lemma Lying(forest: Forest, from: Item, item: Item)
    requires forest.Valid() && item in forest.members && item.parent == Inside(from)
    ensures from in forest.lists && item in forest.lists[from] && forest.holder.Keys == forest.lists.Keys == forest.members
  {
    hide Ranked;
    hide Lagging;
    forest.ItemTied(item);
    assert Lies(forest.Shape(), item);
  }

  lemma FitsIsNotAbove(w: World, traits: AllTraits, c: Item, q: Query)
    requires w.Ok() && w.t.lists.Keys == traits.Keys && c in w.t.lists && c in w.t.holder && q.thing != null && q.thing in traits
    requires w.Above(c) <= traits.Keys && Fits(w, traits, c, q)
    ensures q.thing !in w.Above(c)
  {
  }

  lemma AboveIs(forest: Forest, c: Item)
    requires WorldOf(forest).Ok() && c in forest.holder
    ensures forest.Above(c) == WorldOf(forest).Above(c)
  {
  }

  // ---------------------------------------------------------------- the depot's limit, over whole runs

  /** The add was asked for, within limits, and the answer was yes; the chest stands on a tile. */
  ghost predicate Asked(w: World, traits: AllTraits, depot: Item, c: Item, q: Query)
    requires w.Ok()
  {
    && w.t.lists.Keys == w.t.holder.Keys == traits.Keys
    && c in traits && depot in traits && traits[depot].sub == DepotChest && w.t.holder[depot].OnTile?
    && q.thing != null && q.thing in traits && !q.noLimit && !q.childIsOwner
    && Admits(w, traits, c, q)
  }

  /** What may happen: something is taken out; something that lay nowhere is put in; something is moved;
      or part of a stack is split off and put in. */
  datatype Step =
    | TakeOut(from: Item, fromAt: nat)
    | PutIn(q: Query, c: Item, at: nat)
    | Move(q: Query, from: Item, fromAt: nat, mid: World, c: Item, at: nat)
    | Split(q: Query, part: Item, c: Item, at: nat)

  /** A step, where every add to the depot or to something in it has been admitted. */
  ghost predicate StepOk(w: World, w': World, traits: AllTraits, depot: Item, s: Step) {
    && w.Ok() && w'.Ok() && depot in w.t.lists
    && match s
       case TakeOut(from, fromAt) => IsTaken(w, w', from, fromAt)
       case PutIn(q, c, at) =>
         && q.thing != null && IsPlaced(w, w', c, at, q.thing)
         && (depot in w.Above(c) ==> Asked(w, traits, depot, c, q))
       case Move(q, from, fromAt, mid, c, at) =>
         && q.thing != null && IsTaken(w, mid, from, fromAt) && q.thing == w.t.lists[from][fromAt]
         && IsPlaced(mid, w', c, at, q.thing)
         && (depot in mid.Above(c) ==> Asked(w, traits, depot, c, q))
       case Split(q, part, c, at) =>
         && IsPlaced(w, w', c, at, part) && part in w.t.lists && w.t.lists[part] == []
         && (depot in w.Above(c) ==>
               && Asked(w, traits, depot, c, q)
               && q.thing in traits && traits[q.thing].stackable && traits[q.thing].count != q.count)
  }

  lemma HeldInNothing(w: World, x: Item)
    requires w.Ok() && x in w.t.lists && (!x.isContainer || w.t.lists[x] == [])
    ensures Below(w, x) == multiset{}
  {
    assert Holds(w.t, x);
  }

  /** The count that the depot reckons with covers what a moved item adds, unless it is there already. */
  lemma AddCountCovers(w: World, traits: AllTraits, depot: Item, item: Item, count: nat)
    requires w.Ok() && item in w.t.lists && item in w.t.holder && item in traits
    ensures depot in w.Above(item) || AddCount(w, traits, depot, item, count) == 1 + |Below(w, item)|
    ensures traits[item].stackable && traits[item].count != count ==> AddCount(w, traits, depot, item, count) >= 1
  {
    hide Linked;
    hide Ranked;
    hide TopOf;
    hide Below;
    TopIsAbove(w, item);
    if !item.isContainer { HeldInNothing(w, item); }
  }

  /** However things move about, with every add to the depot or into something inside it admitted, the
      depot never comes to hold more than its limit. */
  lemma StepKeepsLimit(w: World, w': World, traits: AllTraits, depot: Item, s: Step, max: nat)
    requires StepOk(w, w', traits, depot, s) && (depot in traits ==> traits[depot].maxDepotItems == max)
    requires |Below(w, depot)| <= max
    ensures depot in w'.t.lists && |Below(w', depot)| <= max
  {
    hide Linked;
    hide Ranked;
    hide Below;
    hide Admits;
    hide World.Above;
    LinkedKeys(w.t);
    LinkedKeys(w'.t);
    match s
    case TakeOut(from, fromAt) => BelowTaken(w, w', from, fromAt, depot);
    case PutIn(q, c, at) =>
      BelowPlaced(w, w', c, at, q.thing, depot);
      if depot in w.Above(c) {
        HoldsSomething(w, w', c, at, q.thing);
        AdmittedStaysWithin(w, traits, depot, c, q);
        LiesAlone(w, q.thing, depot, c);
      }
    case Move(q, from, fromAt, mid, c, at) =>
      MoveKeepsLimit(w, w', traits, depot, s, max);
    case Split(q, part, c, at) =>
      HeldInNothing(w, part);
      BelowPlaced(w, w', c, at, part, depot);
      if depot in w.Above(c) {
        HoldsSomething(w, w', c, at, part);
        AdmittedStaysWithin(w, traits, depot, c, q);
      }
  }

  lemma HoldsSomething(w: World, w': World, c: Item, at: nat, x: Item)
    requires IsPlaced(w, w', c, at, x)
    ensures c.isContainer
  {
    assert Holds(w'.t, c) && w'.t.lists[c] != [];
  }

  /** What lies nowhere has nothing above it, and the chest is not it. */
  lemma LiesAlone(w: World, x: Item, depot: Item, c: Item)
    requires w.Ok() && x in w.t.holder && w.t.holder[x].Nowhere? && c in w.t.holder && depot in w.Above(c) && x !in w.Above(c)
    ensures depot !in w.Above(x)
  {
  }

  lemma MoveKeepsLimit(w: World, w': World, traits: AllTraits, depot: Item, s: Step, max: nat)
    requires s.Move? && StepOk(w, w', traits, depot, s) && (depot in traits ==> traits[depot].maxDepotItems == max)
    requires |Below(w, depot)| <= max
    ensures depot in w'.t.lists && |Below(w', depot)| <= max
  {
    hide Linked;
    hide Ranked;
    hide Below;
    hide Admits;
    var x, mid := s.q.thing, s.mid;
    LinkedKeys(w.t);
    LinkedKeys(mid.t);
    PlacedBack(w.t, s.from, s.fromAt);
    BelowTaken(w, mid, s.from, s.fromAt, depot);
    BelowPlaced(mid, w', s.c, s.at, x, depot);
    if depot in mid.Above(s.c) {
      HoldsSomething(mid, w', s.c, s.at, x);
      NotAboveTarget(w, mid, w', traits, depot, s);
      AdmittedStaysWithin(w, traits, depot, s.c, s.q);
    }
  }

  /** The item that moves is not above where it goes, so what is above that stays. */
  lemma NotAboveTarget(w: World, mid: World, w': World, traits: AllTraits, depot: Item, s: Step)
    requires s.Move? && s.mid == mid && StepOk(w, w', traits, depot, s) && depot in mid.Above(s.c)
    ensures s.c in w.t.holder && depot in w.Above(s.c)
  {
    hide Linked;
    hide Ranked;
    hide Up;
    hide TopAdmits;
    hide DepotHasRoom;
    LinkedKeys(w.t);
    FitsIsNotAbove(w, traits, s.c, s.q);
    TakenLeavesAbove(w, mid, s.from, s.fromAt, s.c);
  }

  /** Any run of such steps, the limit fixed and the other traits free to change. */
  ghost predicate Run(ws: seq<World>, steps: seq<Step>, traits: seq<AllTraits>, depot: Item, max: nat) {
    && |ws| == |steps| + 1 == |traits| + 1
    && (forall i :: 0 <= i < |steps| ==> StepOk(ws[i], ws[i + 1], traits[i], depot, steps[i]))
    && (forall i :: 0 <= i < |traits| && depot in traits[i] ==> traits[i][depot].maxDepotItems == max)
  }

  lemma {:induction false} DepotNeverOverfull(ws: seq<World>, steps: seq<Step>, traits: seq<AllTraits>, depot: Item,
                                           max: nat, n: nat)
    requires Run(ws, steps, traits, depot, max) && n < |ws|
    requires ws[0].Ok() && depot in ws[0].t.lists && |Below(ws[0], depot)| <= max
    ensures ws[n].Ok() && depot in ws[n].t.lists && |Below(ws[n], depot)| <= max
  {
    hide StepOk;
    hide Below;
    hide World.Ok;
    if n == 0 {
    } else {
      DepotNeverOverfull(ws, steps, traits, depot, max, n - 1);
      assert StepOk(ws[n - 1], ws[n - 1 + 1], traits[n - 1], depot, steps[n - 1]);
      StepKeepsLimit(ws[n - 1], ws[n], traits[n - 1], depot, steps[n - 1], max);
      StepEndsOk(ws[n - 1], ws[n], traits[n - 1], depot, steps[n - 1]);
    }
  }

  lemma StepEndsOk(w: World, w': World, traits: AllTraits, depot: Item, s: Step)
    requires StepOk(w, w', traits, depot, s)
    ensures w'.Ok()
  {
  }
}
