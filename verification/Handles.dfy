/** Counted handles on the combats of a registry (src/intrusive.h, src/combat.h, src/combat.cpp). */
module Handles {

  class Combat {
    var refCount: int
    const combatId: int

    constructor (combatId: int)
      ensures refCount == 0 && this.combatId == combatId
    {
      refCount, this.combatId := 0, combatId;
    }
  }

  /** `intrusive_ptr<Combat>`. */
  class Handle {
    var p: Combat?

    constructor (p: Combat?)
      ensures this.p == p
    {
      this.p := p;
    }
  }

  // ---------------------------------------------------------------- who points where

  type Targets = map<Handle, Combat?>

  ghost function Pointing(targets: Targets, c: Combat): set<Handle> {
    set h | h in targets && targets[h] == c
  }

  /** How many handles point to `c`. */
  ghost function Count(targets: Targets, c: Combat): nat {
    |Pointing(targets, c)|
  }

  /** Redirecting one handle takes one from where it pointed and adds one to where it points now. */
  lemma Redirect(targets: Targets, h: Handle, to: Combat?, c: Combat)
    ensures Count(targets[h := to], c) ==
            Count(targets, c) - (if h in targets && targets[h] == c then 1 else 0) + if to == c then 1 else 0
  {
    var before, after := Pointing(targets, c), Pointing(targets[h := to], c);
    if to == c {
      assert after == before + {h};
    } else {
      assert after == before - {h};
    }
  }

  /** A handle that goes away takes one from where it pointed. */
  lemma Forget(targets: Targets, h: Handle, c: Combat)
    requires h in targets
    ensures Count(targets - {h}, c) == Count(targets, c) - if targets[h] == c then 1 else 0
  {
    assert Pointing(targets - {h}, c) == Pointing(targets, c) - {h};
  }

  lemma SomePointsTo(targets: Targets, h: Handle)
    requires h in targets && targets[h] != null
    ensures Count(targets, targets[h]) > 0
  {
    assert h in Pointing(targets, targets[h]);
  }

  lemma NobodyPointsTo(targets: Targets, c: Combat)
    requires Count(targets, c) == 0
    ensures forall h :: h in targets ==> targets[h] != c
  {
    forall h | h in targets ensures targets[h] != c {
      if targets[h] == c { SomePointsTo(targets, h); }
    }
  }

  predicate InTable(table: map<int, Combat>, c: Combat) {
    c.combatId in table && table[c.combatId] == c
  }

  /** No handle dangles: what it points to is in the table. */
  ghost predicate NoneDangles(table: map<int, Combat>, targets: Targets) {
    forall h :: h in targets && targets[h] != null ==> InTable(table, targets[h])
  }

  /** Redirecting a handle to nothing, or to what is in the table, leaves none dangling. */
  lemma DanglesNot(table: map<int, Combat>, targets: Targets, h: Handle, to: Combat?)
    requires NoneDangles(table, targets) && (to != null ==> InTable(table, to))
    ensures NoneDangles(table, targets[h := to])
  {
  }

  lemma MoreInTable(table: map<int, Combat>, id: int, c: Combat, targets: Targets)
    requires NoneDangles(table, targets) && id !in table && c.combatId == id
    ensures NoneDangles(table[id := c], targets) && InTable(table[id := c], c)
  {
  }

  lemma NotDangling(table: map<int, Combat>, targets: Targets, h: Handle)
    requires NoneDangles(table, targets) && h in targets && targets[h] != null
    ensures InTable(table, targets[h])
  {
  }

  /** The registry. The ghost `targets` follows every handle that is alive; `issued` has every id given out. */
  class Registry {
    var table: map<int, Combat>
    var nextId: int
    ghost var targets: Targets
    ghost var issued: set<int>

    /** The table holds combats under their own ids, which are among those given out. */
    ghost predicate Filed()
      reads this`table, this`nextId, this`issued
    {
      && (forall id :: id in table ==> table[id].combatId == id && id in issued)
      && (forall id :: id in issued ==> id < nextId)
    }

    ghost predicate Followed()
      reads this`targets, targets.Keys`p
    {
      forall h :: h in targets ==> targets[h] == h.p
    }

    /** The count of a combat is positive and is the number of handles on it, if handles point as `at`
        says; that of `extra` is one more. */
    ghost predicate Exact(at: Targets, extra: Combat?)
      reads this`table, table.Values`refCount
    {
      forall id :: id in table ==>
        table[id].refCount > 0 && table[id].refCount == Count(at, table[id]) + if table[id] == extra then 1 else 0
    }

    ghost predicate Valid()
      reads this, targets.Keys`p, table.Values`refCount
    {
      Filed() && Followed() && NoneDangles(table, targets) && Exact(targets, null)
    }

    constructor ()
      ensures Valid() && table == map[] && targets == map[] && issued == {}
    {
      table, nextId, targets, issued := map[], 1, map[], {};
    }

    /** `intrusive_ptr_add_ref`, on the way from `before` to `after`. */
    method Add(p: Combat?, ghost before: Targets, ghost after: Targets)
      requires Filed() && NoneDangles(table, before) && Exact(before, null) && (p != null ==> InTable(table, p))
      requires forall c :: c in table.Values ==> Count(after, c) == Count(before, c) + if c == p then 1 else 0
      modifies if p == null then {} else {p}
      ensures Exact(after, null)
    {
      hide Count;
      if p != null {
        p.refCount := p.refCount + 1;
      }
    }

    /** `intrusive_ptr_release`: the combat leaves the table with its last handle. */
    method Drop(p: Combat?, ghost after: Targets)
      requires Filed() && NoneDangles(table, after) && Exact(after, p) && (p != null ==> InTable(table, p))
      modifies this`table, if p == null then {} else {p}
      ensures Filed() && NoneDangles(table, after) && Exact(after, null)
      ensures forall c: Combat? :: c != null && c != p ==> (InTable(table, c) <==> InTable(old(table), c))
      ensures p != null ==> (InTable(table, p) <==> Count(after, p) > 0)
    {
      hide Count;
      if p != null {
        p.refCount := p.refCount - 1;
        if p.refCount == 0 {
          NobodyPointsTo(after, p);
          table := table - {p.combatId};
        }
      }
    }

    /** `CombatRegistry::Create`: a combat under an id never given out before, and the one handle on it. */
    method Create() returns (h: Handle)
      requires Valid()
      modifies this
      ensures Valid() && fresh(h) && h.p != null && fresh(h.p)
      ensures targets == old(targets)[h := h.p] && h.p.combatId == old(nextId) && old(nextId) !in old(issued)
      ensures table == old(table)[old(nextId) := h.p] && issued == old(issued) + {old(nextId)}
    {
      hide Filed;
      hide Followed;
      hide NoneDangles;
      hide Exact;
      var c := Allot();
      h := FirstHandle(c);
    }

    /** The next id, and a combat that has it. */
    method Allot() returns (c: Combat)
      requires Valid()
      modifies this`nextId, this`issued
      ensures Valid() && fresh(c) && c.refCount == 0 && c.combatId == old(nextId) && old(nextId) !in table
      ensures old(nextId) !in old(issued) && issued == old(issued) + {old(nextId)}
    {
      hide Count;
      hide NoneDangles;
      c := new Combat(nextId);
      issued := issued + {nextId};
      nextId := nextId + 1;
    }

    /** A combat enters the table with the handle that is made of it. */
    method FirstHandle(c: Combat) returns (h: Handle)
      requires Valid() && c.refCount == 0 && c.combatId !in table && c.combatId in issued
      modifies this`table, this`targets, c
      ensures Valid() && fresh(h) && h.p == c
      ensures targets == old(targets)[h := c] && table == old(table)[c.combatId := c]
    {
      hide Count;
      hide NoneDangles;
      h := new Handle(c);
      ghost var after := targets[h := c];
      NoneHeard(c);
      forall d: Combat | d in table.Values || d == c ensures Count(after, d) == Count(targets, d) + if d == c then 1 else 0 {
        Redirect(targets, h, c, d);
      }
      MoreInTable(table, c.combatId, c, targets);
      DanglesNot(table[c.combatId := c], targets, h, c);
      table := table[c.combatId := c];
      targets := after;
      c.refCount := c.refCount + 1;
    }

    lemma NoneHeard(c: Combat)
      requires Valid() && !InTable(table, c)
      ensures Count(targets, c) == 0
    {
      Unheard(targets, c);
    }

    lemma Unheard(at: Targets, c: Combat)
      requires forall h :: h in at ==> at[h] != c
      ensures Count(at, c) == 0
    {
      assert Pointing(at, c) == {};
    }

    /** A null handle. */
    method Empty() returns (h: Handle)
      requires Valid()
      modifies this`targets
      ensures Valid() && fresh(h) && h.p == null && targets == old(targets)[h := null]
    {
      hide Count;
      h := new Handle(null);
      forall d: Combat | d in table.Values ensures Count(targets[h := null], d) == Count(targets, d) {
        Redirect(targets, h, null, d);
      }
      targets := targets[h := null];
    }

    /** The copy constructor. */
    method Copy(other: Handle) returns (h: Handle)
      requires Valid() && other in targets
      modifies this`targets, if other.p == null then {} else {other.p}
      ensures Valid() && fresh(h) && targets == old(targets)[h := other.p]
    {
      hide Count;
      h := new Handle(other.p);
      ghost var after := targets[h := other.p];
      forall d: Combat | d in table.Values ensures Count(after, d) == Count(targets, d) + if d == other.p then 1 else 0 {
        Redirect(targets, h, other.p, d);
      }
      Add(other.p, targets, after);
      targets := after;
    }

    /** The move constructor: no count changes. */
    method Move(other: Handle) returns (h: Handle)
      requires Valid() && other in targets
      modifies this`targets, other
      ensures Valid() && fresh(h) && targets == old(targets)[h := old(other.p)][other := null]
    {
      hide Count;
      hide NoneDangles;
      if other.p != null { NotDangling(table, targets, other); }
      h := new Handle(other.p);
      DanglesNot(table, targets, h, other.p);
      DanglesNot(table, targets[h := other.p], other, null);
      ghost var p, mid := other.p, targets[h := other.p];
      forall d: Combat | d in table.Values ensures Count(mid[other := null], d) == Count(targets, d) {
        Redirect(targets, h, p, d);
        Redirect(mid, other, null, d);
      }
      other.p := null;
      targets := mid[other := null];
    }

    /** `Drop`, on behalf of a handle that then points to nothing. */
    method Release(h: Handle)
      requires Valid() && h in targets
      modifies this`targets, this`table, h, if h.p == null then {} else {h.p}
      ensures Valid() && targets == old(targets)[h := null]
    {
      hide Count;
      ghost var was, after := h.p, targets[h := null];
      forall d: Combat | d in table.Values ensures Count(targets, d) == Count(after, d) + if d == was then 1 else 0 {
        Redirect(targets, h, null, d);
      }
      Drop(h.p, after);
      h.p := null;
      targets := after;
    }

    /** A null handle is pointed at a combat, which gains a reference. */
    method Attach(h: Handle, p: Combat?)
      requires Valid() && h in targets && h.p == null && (p != null ==> InTable(table, p))
      modifies this`targets, h, if p == null then {} else {p}
      ensures Valid() && targets == old(targets)[h := p]
    {
      hide Count;
      hide NoneDangles;
      ghost var after := targets[h := p];
      DanglesNot(table, targets, h, p);
      forall d: Combat | d in table.Values ensures Count(after, d) == Count(targets, d) + if d == p then 1 else 0 {
        Redirect(targets, h, p, d);
      }
      Add(p, targets, after);
      h.p := p;
      targets := after;
    }

    /** A null handle takes over what another one points to. */
    method TakeOver(h: Handle, other: Handle)
      requires Valid() && h in targets && other in targets && h.p == null && h != other
      modifies this`targets, h, other
      ensures Valid() && targets == old(targets)[h := old(other.p)][other := null]
    {
      hide Count;
      hide NoneDangles;
      ghost var p, mid := other.p, targets[h := other.p];
      if p != null { NotDangling(table, targets, other); }
      DanglesNot(table, targets, h, p);
      DanglesNot(table, mid, other, null);
      forall d: Combat | d in table.Values ensures Count(mid[other := null], d) == Count(targets, d) {
        Redirect(targets, h, p, d);
        Redirect(mid, other, null, d);
      }
      h.p := other.p;
      other.p := null;
      targets := mid[other := null];
    }

    /** Assignment from an lvalue; nothing happens where both point to the same combat. */
    method CopyAssign(h: Handle, other: Handle)
      requires Valid() && h in targets && other in targets
      modifies this`targets, this`table, h, if h.p == null then {} else {h.p}, if other.p == null then {} else {other.p}
      ensures Valid() && targets == old(targets)[h := other.p] && other.p == old(other.p)
    {
      hide Count;
      hide NoneDangles;
      hide Exact;
      if h.p != other.p {
        Release(h);
        if other.p != null { NotDangling(table, targets, other); }
        Attach(h, other.p);
        assert targets == old(targets)[h := null][h := other.p] == old(targets)[h := other.p];
      } else {
        assert targets[h := other.p] == targets;
      }
    }

    /** Assignment from an rvalue; where both point to the same combat, both still do afterwards. */
    method MoveAssign(h: Handle, other: Handle)
      requires Valid() && h in targets && other in targets
      modifies this`targets, this`table, h, other, if h.p == null then {} else {h.p}
      ensures Valid()
      ensures targets == if old(h.p) == old(other.p) then old(targets) else old(targets)[h := old(other.p)][other := null]
    {
      hide Count;
      hide NoneDangles;
      hide Exact;
      if h.p != other.p {
        Release(h);
        TakeOver(h, other);
      }
    }

    /** `reset`. */
    method Reset(h: Handle)
      requires Valid() && h in targets
      modifies this`targets, this`table, h, if h.p == null then {} else {h.p}
      ensures Valid() && targets == old(targets)[h := null]
    {
      Release(h);
    }

    /** The destructor: the handle is no longer there. */
    method Destroy(h: Handle)
      requires Valid() && h in targets
      modifies this`targets, this`table, if h.p == null then {} else {h.p}
      ensures Valid() && targets == old(targets) - {h}
    {
      hide Count;
      ghost var was, after := h.p, targets - {h};
      forall d: Combat | d in table.Values ensures Count(targets, d) == Count(after, d) + if d == was then 1 else 0 {
        Forget(targets, h, d);
      }
      Drop(h.p, after);
      targets := after;
    }

    /** In the registry exactly while some handle points to it; and no handle dangles. */
    lemma LivesWhilePointedTo(c: Combat)
      requires Valid()
      ensures InTable(table, c) ==> c.refCount == Count(targets, c) > 0
      ensures !InTable(table, c) ==> Count(targets, c) == 0
    {
      if !InTable(table, c) {
        NoneHeard(c);
      }
    }
  }
}
