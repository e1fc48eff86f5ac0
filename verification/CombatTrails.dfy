/** What a strike leaves behind: the tree of combats it spawned, and the worlds it went through. A trail of spawned
    combats starts in the world the one before it left. */
module CombatTrails {
  import opened CombatPlans
  import opened Words

  // ---------------------------------------------------------------- one step of the world

  /** The caster after paying for attack modifiers. */
  function AttackPaid(w: World, id: nat, cost: uint32): World
    requires id in w && w[id].attackCharges >= cost
  {
    w[id := w[id].(attackCharges := w[id].attackCharges - cost)]
  }

  function DefensePaid(w: World, id: nat, cost: uint32): World
    requires id in w && w[id].defenseCharges >= cost
  {
    w[id := w[id].(defenseCharges := w[id].defenseCharges - cost)]
  }

  lemma PaidIsWorn(w: World, id: nat, cost: uint32)
    requires id in w
    ensures w[id].attackCharges >= cost ==> Worn(w, AttackPaid(w, id, cost))
    ensures w[id].defenseCharges >= cost ==> Worn(w, DefensePaid(w, id, cost))
    ensures w[id := w[id]] == w
  {
  }

  function HealedIn(w: World, id: nat, roots: seq<Root>): World
    requires id in w
  {
    w[id := HealedBy(w[id], roots)]
  }

  lemma HealedInIsWorn(w: World, id: nat, roots: seq<Root>)
    requires id in w
    ensures Worn(w, HealedIn(w, id, roots)) && HealedIn(w, id, []) == w
  {
    HealedIsKin(w[id], roots);
    assert w[id := w[id]] == w;
  }

  lemma HealedInTwice(w: World, id: nat, a: seq<Root>, b: seq<Root>)
    requires id in w
    ensures HealedIn(HealedIn(w, id, a), id, b) == HealedIn(w, id, a + b)
  {
    HealedByConcat(w[id], a, b);
    assert w[id := HealedBy(w[id], a)][id := HealedBy(w[id], a + b)] == w[id := HealedBy(w[id], a + b)];
  }

  /** Damage that hits the creatures of an area one after the other, those of them that are there. */
  ghost predicate AreaStruck(worlds: seq<World>, on: seq<Bystander>, c: Combat, dealt: seq<nat>) {
    && |worlds| == |on| + 1 && |dealt| == |on|
    && forall i :: 0 <= i < |on| ==>
         if on[i].id in worlds[i] then
           Struck(worlds[i], worlds[i + 1], on[i].id, c.damageType, c.damage, on[i].veto, dealt[i])
         else worlds[i + 1] == worlds[i]
  }

  lemma NobodyStruck(w: World, c: Combat)
    ensures AreaStruck([w], [], c, [])
  {
  }

  lemma OneMoreStruck(worlds: seq<World>, on: seq<Bystander>, c: Combat, dealt: seq<nat>, b: Bystander, after: World, hit: nat)
    requires AreaStruck(worlds, on, c, dealt) && |worlds| == |on| + 1
    requires var before := worlds[|on|];
             if b.id in before then Struck(before, after, b.id, c.damageType, c.damage, b.veto, hit) else after == before
    ensures AreaStruck(worlds + [after], on + [b], c, dealt + [hit])
  {
    hide Struck;
  }

  // ---------------------------------------------------------------- what a strike spawned

  /** What a spawned combat was given to work with, and what it found. */
  datatype Account =
    | NoAccount
    | Account(plan: Plan, facts: Facts, stages: Stages)
    | AreaAccount(on: seq<Bystander>, worlds: seq<World>, dealt: seq<nat>)

  /** A spawned combat, the worlds before and after it, and what it spawned in turn. */
  datatype Spawn = Spawn(root: Root, account: Account, before: World, after: World, spawned: seq<Spawn>)

  /** What the attack, the defense, stealing and leeching spawned, and the worlds behind each of them; the damage is
      applied between the last two. */
  datatype Stages = Stages(
    press: seq<Spawn>, pressed: World, parry: seq<Spawn>, parried: World,
    steal: seq<Spawn>, struck: World, hit: World, leech: seq<Spawn>)

  function AllStages(t: Stages): seq<Spawn> {
    t.press + (t.parry + (t.steal + t.leech))
  }

  function Roots(spawned: seq<Spawn>): (r: seq<Root>)
    ensures |r| == |spawned|
  {
    seq(|spawned|, i requires 0 <= i < |spawned| => spawned[i].root)
  }

  lemma RootsConcat(a: seq<Spawn>, b: seq<Spawn>)
    ensures Roots(a + b) == Roots(a) + Roots(b)
  {
  }

  lemma RootsNone(spawned: seq<Spawn>)
    ensures Roots(spawned) == [] <==> spawned == []
  {
  }

  /** One after the other, the combats lead from one world to the other. */
  predicate Trail(before: World, spawned: seq<Spawn>, after: World) {
    if spawned == [] then after == before
    else
      var last := spawned[|spawned| - 1];
      last.after == after && Trail(before, spawned[..|spawned| - 1], last.before)
  }

  lemma {:induction false} TrailConcat(x: World, a: seq<Spawn>, y: World, b: seq<Spawn>, z: World)
    requires Trail(x, a, y) && Trail(y, b, z)
    ensures Trail(x, a + b, z)
  {
    if b == [] {
      assert a + b == a;
    } else {
      assert (a + b)[..|a + b| - 1] == a + b[..|b| - 1];
      TrailConcat(x, a, y, b[..|b| - 1], b[|b| - 1].before);
    }
  }

  lemma NoTrail(w: World)
    ensures Trail(w, [], w)
  {
  }

  lemma TrailOne(s: Spawn)
    ensures Trail(s.before, [s], s.after)
  {
    assert [s][..0] == [];
  }

  // ---------------------------------------------------------------- the worlds of a strike

  /** The leech heals of a strike. */
  function Leeched(c: Combat, plan: Plan, f: Facts, entered: uint32, attacker: nat): seq<Root> {
    var applied := Applied(c, plan, f, entered);
    if f.dealt != 0 && Leeches(c, f.byPlayer, applied) then LeechRoots(applied, Leeching(c, plan, f, entered), attacker) else []
  }

  /** The steals of a strike. */
  function Stolen(c: Combat, plan: Plan, f: Facts, entered: uint32, attacker: nat, victim: nat): seq<Root> {
    StealRoots(Parried(c, plan, f, entered), Stealing(c, plan, f, entered), attacker, victim)
  }

  /** How a strike went: the caster pays and what the attack calls for is spawned; unless nothing is left, the victim
      pays and what the defense calls for is spawned; and then the end. */
  ghost predicate Tells(c: Combat, plan: Plan, f: Facts, t: Stages, before: World, after: World, entered: uint32,
                        attacker: nat, victim: nat)
  {
    && attacker in before && victim in before
    && f.byPlayer == before[attacker].isPlayer
    && f.attacks == Attacks(c, before[attacker], plan.attack)
    && Roots(t.press) == PressRoots(c, plan, f, entered, attacker, victim)
    && Trail(if f.attacks then AttackPaid(before, attacker, plan.attack.cost) else before, t.press, t.pressed)
    && if Stops(c, plan, f, entered) then
         !f.defends && f.dealt == 0 && t.parry == t.steal == t.leech == [] && after == t.pressed
       else
         && victim in t.pressed
         && f.defends == Defends(c, t.pressed[victim], plan.defense)
         && Roots(t.parry) == ParryRoots(c, plan, f, entered, attacker, victim)
         && Trail(if f.defends then DefensePaid(t.pressed, victim, plan.defense.cost) else t.pressed, t.parry, t.parried)
         && TellsEnd(c, plan, f, t, after, entered, attacker, victim)
  }

  /** What is stolen is spawned, the rest hits the victim and nobody else, and the caster is healed. */
  ghost predicate TellsEnd(c: Combat, plan: Plan, f: Facts, t: Stages, after: World, entered: uint32, attacker: nat, victim: nat) {
    && Roots(t.steal) == Stolen(c, plan, f, entered, attacker, victim)
    && Trail(t.parried, t.steal, t.struck)
    && Struck(t.struck, t.hit, victim, c.damageType, Applied(c, plan, f, entered), plan.veto, f.dealt)
    && Roots(t.leech) == Leeched(c, plan, f, entered, attacker)
    && Trail(t.hit, t.leech, after)
    && attacker in t.hit && after == HealedIn(t.hit, attacker, Leeched(c, plan, f, entered, attacker))
  }

  lemma ToldEnd(c: Combat, plan: Plan, f: Facts, t: Stages, after: World, entered: uint32, attacker: nat, victim: nat,
                current: uint32, steal: LeechData, leech: LeechData)
    requires !Stops(c, plan, f, entered) && current == Parried(c, plan, f, entered)
    requires steal == Stealing(c, plan, f, entered) && leech == Leeching(c, plan, f, entered)
    requires Roots(t.steal) == StealRoots(current, steal, attacker, victim) && Trail(t.parried, t.steal, t.struck)
    requires var applied := AfterSteal(current, steal);
             && Struck(t.struck, t.hit, victim, c.damageType, applied, plan.veto, f.dealt) && attacker in t.hit
             && var roots := if f.dealt != 0 && Leeches(c, f.byPlayer, applied) then LeechRoots(applied, leech, attacker) else [];
                Roots(t.leech) == roots && Trail(t.hit, t.leech, after) && after == HealedIn(t.hit, attacker, roots)
    ensures TellsEnd(c, plan, f, t, after, entered, attacker, victim)
  {
    hide Struck;
    hide Trail;
    hide Roots;
    hide Parried;
    hide Stealing;
    hide Leeching;
    hide AfterSteal;
    hide StealRoots;
    hide LeechRoots;
    hide Leeches;
    hide HealedIn;
  }

  /** A combat at one creature, whether or not it comes to dealing damage. */
  ghost predicate TellsAll(c: Combat, plan: Plan, f: Facts, t: Stages, spawned: seq<Spawn>, skipValidation: bool,
                           before: World, after: World, attacker: nat, victim: nat)
  {
    if Enters(c, plan, skipValidation) then
      spawned == AllStages(t) && Tells(c, plan, f, t, before, after, Entering(c, plan), attacker, victim)
    else
      && spawned == [] && victim in before
      && after == if c.damageType == HEALING then before[victim := Healed(before[victim], c.heals, c.damage)] else before
  }

  /** So it spawns exactly what its plan calls for. */
  lemma ToldRoots(c: Combat, plan: Plan, f: Facts, t: Stages, spawned: seq<Spawn>, skipValidation: bool,
                  before: World, after: World, attacker: nat, victim: nat)
    requires TellsAll(c, plan, f, t, spawned, skipValidation, before, after, attacker, victim)
    ensures Roots(spawned) == AllRoots(c, plan, f, skipValidation, attacker, victim)
  {
    RootsConcat(t.steal, t.leech);
    RootsConcat(t.parry, t.steal + t.leech);
    RootsConcat(t.press, t.parry + (t.steal + t.leech));
    hide Trail;
    hide Struck;
    hide Roots;
    hide PressRoots;
    hide ParryRoots;
    hide StealRoots;
    hide LeechRoots;
    hide Parried;
    hide Stealing;
    hide Leeching;
    hide AfterSteal;
    hide Leeches;
    hide Pressed;
    if Enters(c, plan, skipValidation) {
      var entered := Entering(c, plan);
      if Stops(c, plan, f, entered) {
        RootsNone(t.parry + (t.steal + t.leech));
      } else {
        assert EndRoots(c, plan, f, entered, attacker, victim) == Roots(t.steal) + Roots(t.leech);
      }
    } else {
      RootsNone(spawned);
    }
  }

  // ---------------------------------------------------------------- all the way down

  /** A heal spawns nothing and heals its target; a strike has a smaller rank than the one that spawned it, and did
      what its plan says, to the world and in what it spawned; one into an area spawns nothing. */
  ghost predicate Fair(rank: nat, s: Spawn)
    decreases s
  {
    if s.root.combat.damageType == HEALING then
      s.spawned == [] && s.root.target.On? && s.root.target.id in s.before
      && s.after == HealedIn(s.before, s.root.target.id, [s.root])
    else
      && Rank(s.root.combat) < rank
      && Ranked(Rank(s.root.combat), s.spawned)
      && Recounted(s)
  }

  ghost predicate Recounted(s: Spawn) {
    match s.root.target
    case On(id) =>
      s.account.Account?
      && TellsAll(s.root.combat, s.account.plan, s.account.facts, s.account.stages, s.spawned, true, s.before, s.after, s.root.caster, id)
    case Area =>
      s.account.AreaAccount? && s.spawned == []
      && AreaStruck(s.account.worlds, s.account.on, s.root.combat, s.account.dealt)
      && s.account.worlds[0] == s.before && s.account.worlds[|s.account.on|] == s.after
  }

  /** So it is all the way down; a strike of rank zero spawns nothing at all. */
  ghost predicate Ranked(rank: nat, spawned: seq<Spawn>)
    decreases spawned
  {
    && (rank == 0 ==> spawned == [])
    && forall i :: 0 <= i < |spawned| ==> Fair(rank, spawned[i])
  }

  /** A way down the tree, by places: a spawned combat, one that it spawned, and so on. */
  ghost predicate Nested(spawned: seq<Spawn>, path: seq<nat>)
    decreases |path|
  {
    path != [] ==> path[0] < |spawned| && Nested(spawned[path[0]].spawned, path[1..])
  }

  /** The combat at the end of it. */
  ghost function AtEnd(spawned: seq<Spawn>, path: seq<nat>): Spawn
    requires path != [] && Nested(spawned, path)
    decreases |path|
  {
    if |path| == 1 then spawned[path[0]] else AtEnd(spawned[path[0]].spawned, path[1..])
  }

  /** No way down the tree of combats below a strike is longer than the strike's rank. */
  lemma {:induction false} NoDeeperThanRank(rank: nat, spawned: seq<Spawn>, path: seq<nat>)
    requires Ranked(rank, spawned) && Nested(spawned, path)
    ensures |path| <= rank
    decreases |path|
  {
    hide Recounted;
    if path == [] {
    } else {
      var s := spawned[path[0]];
      assert Fair(rank, s);
      if s.root.combat.damageType == HEALING {
        assert path[1..] == [];
      } else {
        NoDeeperThanRank(Rank(s.root.combat), s.spawned, path[1..]);
      }
    }
  }

  /** So a strike has at most two generations below it, one if its attack is modified already, and none if both sides are. */
  lemma GenerationsBelow(c: Combat, spawned: seq<Spawn>, path: seq<nat>)
    requires Ranked(Rank(c), spawned) && Nested(spawned, path)
    ensures |path| <= if !c.attackModified then 2 else if !c.defenseModified then 1 else 0
  {
    NoDeeperThanRank(Rank(c), spawned, path);
  }

  /** At any depth: a heal has healed its target and spawned nothing, a strike at a creature has spawned exactly what its
      own plan calls for, and one into an area nothing. */
  lemma {:induction false} ToldAtAnyDepth(rank: nat, spawned: seq<Spawn>, path: seq<nat>)
    requires Ranked(rank, spawned) && path != [] && Nested(spawned, path)
    ensures var s := AtEnd(spawned, path);
            if s.root.combat.damageType == HEALING then
              s.spawned == [] && s.root.target.On? && s.root.target.id in s.before
              && s.after == s.before[s.root.target.id := Healed(s.before[s.root.target.id], s.root.combat.heals, s.root.combat.damage)]
            else match s.root.target
                 case Area => s.spawned == []
                 case On(id) =>
                   s.account.Account?
                   && Roots(s.spawned) == AllRoots(s.root.combat, s.account.plan, s.account.facts, true, s.root.caster, id)
    decreases |path|
  {
    hide TellsAll;
    hide AreaStruck;
    hide AllRoots;
    hide Roots;
    var s := spawned[path[0]];
    assert Fair(rank, s);
    if |path| == 1 {
      if s.root.combat.damageType == HEALING {
        HealedByOne(s.before[s.root.target.id], s.root);
      } else if s.root.target.On? {
        ToldRoots(s.root.combat, s.account.plan, s.account.facts, s.account.stages, s.spawned, true, s.before, s.after,
                  s.root.caster, s.root.target.id);
      }
    } else {
      assert path[1..] != [];
      if s.root.combat.damageType == HEALING {
        assert false;
      } else {
        ToldAtAnyDepth(Rank(s.root.combat), s.spawned, path[1..]);
      }
    }
  }

  /** Who stands once in an area takes the damage of the combat exactly once, whoever else is hit. */
  lemma AreaHitsOnce(worlds: seq<World>, on: seq<Bystander>, c: Combat, dealt: seq<nat>, i: nat)
    requires AreaStruck(worlds, on, c, dealt) && i < |on| && on[i].id in worlds[0]
    requires forall j :: 0 <= j < |on| && j != i ==> on[j].id != on[i].id
    ensures on[i].id in worlds[|on|]
    ensures TakesDamage(worlds[0][on[i].id], worlds[|on|][on[i].id], c.damageType, c.damage, on[i].veto, dealt[i])
  {
    hide TakesDamage;
    NotHitBetween(worlds, on, c, dealt, on[i].id, 0, i);
    assert Struck(worlds[i], worlds[i + 1], on[i].id, c.damageType, c.damage, on[i].veto, dealt[i]);
    NotHitBetween(worlds, on, c, dealt, on[i].id, i + 1, |on|);
  }

  lemma {:induction false} NotHitBetween(worlds: seq<World>, on: seq<Bystander>, c: Combat, dealt: seq<nat>, id: nat,
                                      from: nat, end: nat)
    requires AreaStruck(worlds, on, c, dealt) && from <= end <= |on|
    requires forall j :: from <= j < end ==> on[j].id != id
    ensures id in worlds[from] <==> id in worlds[end]
    ensures id in worlds[from] ==> worlds[end][id] == worlds[from][id]
    decreases end
  {
    if from == end {
    } else {
      hide TakesDamage;
      NotHitBetween(worlds, on, c, dealt, id, from, end - 1);
      var b := on[end - 1];
      assert if b.id in worlds[end - 1] then Struck(worlds[end - 1], worlds[end], b.id, c.damageType, c.damage, b.veto, dealt[end - 1])
             else worlds[end] == worlds[end - 1];
    }
  }

  lemma NothingSpawned(rank: nat)
    ensures Ranked(rank, []) && Roots([]) == []
  {
  }

  lemma Join(rank: nat, x: World, a: seq<Spawn>, y: World, b: seq<Spawn>, z: World)
    requires Ranked(rank, a) && Ranked(rank, b) && Trail(x, a, y) && Trail(y, b, z)
    ensures Ranked(rank, a + b) && Roots(a + b) == Roots(a) + Roots(b) && Trail(x, a + b, z)
  {
    hide Fair;
    RootsConcat(a, b);
    TrailConcat(x, a, y, b, z);
  }

  lemma RankedOne(rank: nat, s: Spawn)
    requires rank > 0 && Fair(rank, s)
    ensures Ranked(rank, [s]) && Roots([s]) == [s.root] && Trail(s.before, [s], s.after)
  {
    hide Fair;
    TrailOne(s);
  }

  lemma RankedUp(low: nat, high: nat, spawned: seq<Spawn>)
    requires Ranked(low, spawned) && low <= high
    ensures Ranked(high, spawned)
  {
    hide Recounted;
    forall i | 0 <= i < |spawned| ensures Fair(high, spawned[i]) {
      assert Fair(low, spawned[i]);
    }
  }

  lemma FairStrike(rank: nat, s: Spawn)
    requires s.root.combat.damageType != HEALING && Rank(s.root.combat) < rank && Ranked(Rank(s.root.combat), s.spawned)
    requires s.root.target.On? && s.account.Account?
    requires TellsAll(s.root.combat, s.account.plan, s.account.facts, s.account.stages, s.spawned, true, s.before, s.after,
                      s.root.caster, s.root.target.id)
    ensures Fair(rank, s)
  {
    hide TellsAll;
    hide Ranked;
  }

  lemma FairArea(rank: nat, s: Spawn)
    requires s.root.combat.damageType != HEALING && Rank(s.root.combat) < rank && s.spawned == []
    requires s.root.target.Area? && s.account.AreaAccount?
    requires AreaStruck(s.account.worlds, s.account.on, s.root.combat, s.account.dealt) && |s.account.worlds| == |s.account.on| + 1
    requires s.account.worlds[0] == s.before && s.account.worlds[|s.account.on|] == s.after
    ensures Fair(rank, s)
  {
    hide AreaStruck;
  }

  /** True damage with both flags set hits the victim for exactly its damage, and changes nobody else. */
  lemma LeafStrikes(c: Combat, plan: Plan, f: Facts, t: Stages, before: World, after: World, attacker: nat, victim: nat)
    requires IsLeaf(c) && Tells(c, plan, f, t, before, after, c.damage, attacker, victim)
    ensures Struck(before, after, victim, c.damageType, c.damage, plan.veto, f.dealt)
  {
    hide Struck;
    hide HealedIn;
    RootsNone(t.press);
    RootsNone(t.parry);
    RootsNone(t.steal);
    NothingStolen(c.damage, attacker, victim);
    NothingLeeched(c.damage, attacker);
    if !Stops(c, plan, f, c.damage) {
      HealedInIsWorn(t.hit, attacker, []);
    } else {
      NothingHits(before, victim, c.damageType, plan.veto);
    }
  }

  /** Where neither side has modifiers that apply, a strike spawns nothing and hits the victim for all that came in. */
  lemma PlainStrikes(c: Combat, plan: Plan, f: Facts, t: Stages, before: World, after: World, entered: uint32,
                     attacker: nat, victim: nat)
    requires Tells(c, plan, f, t, before, after, entered, attacker, victim)
    requires !plan.attack.hasModifiers && !plan.defense.hasModifiers
    ensures AllStages(t) == [] && Struck(before, after, victim, c.damageType, entered, plan.veto, f.dealt)
  {
    hide Struck;
    hide HealedIn;
    hide Leeches;
    hide LeechRoots;
    RootsNone(t.press);
    RootsNone(t.parry);
    RootsNone(t.steal);
    RootsNone(t.leech);
    NothingStolen(entered, attacker, victim);
    NothingLeeched(entered, attacker);
    if !Stops(c, plan, f, entered) {
      HealedInIsWorn(t.hit, attacker, []);
    } else {
      NothingHits(before, victim, c.damageType, plan.veto);
    }
  }

  lemma NothingHits(w: World, victim: nat, damageType: nat, veto: bool)
    requires victim in w
    ensures Struck(w, w, victim, damageType, 0, veto, 0)
  {
  }
}
