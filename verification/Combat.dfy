/** The strike pipeline of src/combat.cpp, running on the creatures of a battle: strikes spawn combats that
    strike in turn, and every stage does what CombatPlans says of it. */
module Combat {
  import opened CombatPlans
  import CombatTables
  import opened CombatTrails
  import opened Words

  // ---------------------------------------------------------------- the strike

  class Battle {
    var creatures: World

    constructor (creatures: World)
      ensures this.creatures == creatures
    {
      this.creatures := creatures;
    }

    /** `apply_damage` on a monster. `veto` is the answer of the target's prepare-death scripts. */
    method ApplyToMonster(damageType: nat, target: nat, current: uint32, veto: bool) returns (dealt: uint32)
      requires target in creatures && !creatures[target].isPlayer
      modifies this
      ensures Struck(old(creatures), creatures, target, damageType, current, veto, dealt)
    {
      var t := creatures[target];
      if damageType == MANA_DRAIN { return 0; }
      var changed := Min(current, Wrap(t.health));
      if changed == 0 { return 0; }
      if changed == Wrap(t.health) && veto { return 0; }
      creatures := creatures[target := t.(health := t.health - changed)];
      return changed;
    }

    /** `apply_damage` on a player. */
    method ApplyToPlayer(damageType: nat, target: nat, current: uint32, veto: bool) returns (dealt: uint32)
      requires target in creatures && creatures[target].isPlayer
      modifies this
      ensures Struck(old(creatures), creatures, target, damageType, current, veto, dealt)
    {
      hide Wrap;
      hide Add;
      var t := creatures[target];
      Fitting(t);
      var health := Wrap(t.health);
      var drain, shield := damageType == MANA_DRAIN, t.manaShield;
      var limit := if drain || shield then (if drain then t.mana else Add(t.mana, health)) else health;
      dealt := 0;
      if drain || shield {
        dealt := Min(current, t.mana);
        t := t.(mana := t.mana - dealt);
        creatures := creatures[target := t];
        if drain || dealt == current { return; }
      }
      Lowered(limit, dealt);
      limit := Wrap(limit + TWO32 - dealt);
      if current > dealt {
        var changed := Min(current - dealt, limit);
        if changed == health && veto { return 0; }
        Fits32(dealt + changed);
        dealt := Add(dealt, changed);
        creatures := creatures[target := t.(health := if changed <= t.health then t.health - changed else 0)];
      }
    }

    method ApplyDamage(damageType: nat, target: nat, current: uint32, veto: bool) returns (dealt: uint32)
      requires target in creatures
      modifies this
      ensures Struck(old(creatures), creatures, target, damageType, current, veto, dealt)
      ensures var t := old(creatures)[target];
              && (InRange(t) && damageType != MANA_DRAIN && !(t.isPlayer && t.manaShield) && !(veto && t.health <= current) ==>
                    dealt == Min(current, t.health) && creatures == old(creatures)[target := t.(health := t.health - dealt)])
              && (InRange(t) && damageType == MANA_DRAIN ==>
                    dealt == (if t.isPlayer then Min(current, t.mana) else 0)
                    && creatures == old(creatures)[target := t.(mana := if t.isPlayer then t.mana - dealt else t.mana)])
    {
      hide TakesDamage;
      if creatures[target].isPlayer {
        dealt := ApplyToPlayer(damageType, target, current, veto);
      } else {
        dealt := ApplyToMonster(damageType, target, current, veto);
      }
      if InRange(old(creatures)[target]) {
        DamageTaken(old(creatures)[target], creatures[target], damageType, current, veto, dealt);
        OneChanged(old(creatures), creatures, target, damageType, current, veto, dealt);
      }
    }

    /** `heal_target`; a heal starts no further combat. */
    method HealTarget(c: Combat, caster: nat, target: nat) returns (ghost s: Spawn)
      requires target in creatures && c.damageType == HEALING
      modifies this
      ensures s == Spawn(Root(c, c.damage, caster, On(target)), NoAccount, old(creatures), creatures, [])
      ensures creatures == old(creatures)[target := Healed(old(creatures)[target], c.heals, c.damage)]
      ensures creatures == HealedIn(old(creatures), target, [s.root])
    {
      var t := creatures[target];
      match c.heals {
      case Health =>
        if t.health < t.maxHealth { t := t.(health := t.health + Min(c.damage, t.maxHealth - t.health)); }
      case Mana =>
        if t.isPlayer && t.mana < t.maxMana { t := t.(mana := t.mana + Min(c.damage, t.maxMana - t.mana)); }
      case Stamina =>
        if t.isPlayer && t.stamina < MAX_STAMINA { t := t.(stamina := t.stamina + Min(c.damage, MAX_STAMINA - t.stamina)); }
      case Soul =>
        if t.isPlayer && t.soul < t.maxSoul { t := t.(soul := t.soul + Min(c.damage, t.maxSoul - t.soul)); }
      case NoStat =>
      }
      creatures := creatures[target := t];
      s := Spawn(Root(c, c.damage, caster, On(target)), NoAccount, old(creatures), creatures, []);
      HealedByOne(old(creatures)[target], s.root);
    }

    /** One combat of the loop below: a heal where its type says so, a strike otherwise. */
    method SpawnBucket(amount: uint32, i: nat, reform: bool, attacker: nat, victim: nat, ghost rank: nat)
      returns (ghost s: Spawn)
      requires attacker in creatures && victim in creatures
      requires rank == (if reform then 1 else 2)
      modifies this
      decreases rank, 0, 0
      ensures Worn(old(creatures), creatures)
      ensures Fair(rank, s) && s.root == BucketRoot(amount, i, reform, attacker, victim)
      ensures s.before == old(creatures) && s.after == creatures
    {
      var kind := PowerOfTwo(i);
      var c := Combat(kind, amount, if reform then Augment else None, false, true, reform, false, false,
                      if !reform && kind == HEALING then Health else NoStat);
      if kind == HEALING {
        s := HealTarget(c, attacker, victim);
        HealedInIsWorn(old(creatures), victim, [s.root]);
      } else {
        s := Send(c, c.damage, attacker, victim, rank);
      }
    }

    /** A strike of a spawned combat, whatever its plan. */
    method Send(c: Combat, amount: nat, attacker: nat, victim: nat, ghost rank: nat) returns (ghost s: Spawn)
      requires attacker in creatures && victim in creatures && c.damageType != HEALING && Rank(c) < rank
      modifies this
      decreases Rank(c), 5, 0
      ensures Worn(old(creatures), creatures)
      ensures Fair(rank, s) && s.root == Root(c, amount, attacker, On(victim))
      ensures s.before == old(creatures) && s.after == creatures
    {
      hide TellsAll;
      hide Ranked;
      hide Roots;
      var plan: Plan := *;
      ghost var below, facts, stages := StrikeTarget(c, attacker, victim, true, plan);
      s := Spawn(Root(c, amount, attacker, On(victim)), Account(plan, facts, stages), old(creatures), creatures, below);
      FairStrike(rank, s);
    }

    /** The second loop of `handle_conversion` and `reform_augment`: one combat per non-empty bucket. */
    method SpawnBuckets(amounts: array<uint32>, reform: bool, attacker: nat, victim: nat, ghost rank: nat)
      returns (ghost spawned: seq<Spawn>)
      requires attacker in creatures && victim in creatures && amounts.Length == DAMAGE_TYPES
      requires rank == (if reform then 1 else 2)
      modifies this
      decreases rank, 1, 0
      ensures Worn(old(creatures), creatures)
      ensures Ranked(rank, spawned)
      ensures Roots(spawned) == BucketRoots(old(amounts[..]), DAMAGE_TYPES, reform, attacker, victim)
      ensures Trail(old(creatures), spawned, creatures)
    {
      hide Ranked;
      hide Fair;
      hide Roots;
      hide BucketRoot;
      hide Trail;
      spawned := [];
      NothingSpawned(rank);
      NoTrail(creatures);
      ghost var all := amounts[..];
      for i := 0 to DAMAGE_TYPES
        invariant Worn(old(creatures), creatures) && amounts[..] == all
        invariant Ranked(rank, spawned) && Roots(spawned) == BucketRoots(all, i, reform, attacker, victim)
        invariant Trail(old(creatures), spawned, creatures)
      {
        if amounts[i] != 0 {
          ghost var before := creatures;
          ghost var s := SpawnBucket(amounts[i], i, reform, attacker, victim, rank);
          WornOn(old(creatures), before, creatures);
          RankedOne(rank, s);
          Join(rank, old(creatures), spawned, before, [s], creatures);
          spawned := spawned + [s];
        }
      }
    }

    /** `handle_conversion`; the caller takes the returned total off the damage. */
    method HandleConversion(mods: seq<Modifier>, attacker: nat, victim: nat, current: uint32)
      returns (total: uint32, ghost spawned: seq<Spawn>)
      requires attacker in creatures && victim in creatures
      modifies this
      decreases 2, 2, 0
      ensures Worn(old(creatures), creatures)
      ensures Ranked(2, spawned)
      ensures total == Wrap(SumAll(mods, current))
      ensures Roots(spawned) == BucketRoots(Buckets(mods, current), DAMAGE_TYPES, false, attacker, victim)
      ensures Trail(old(creatures), spawned, creatures)
    {
      var amounts;
      amounts, total := FillBuckets(mods, current, true);
      assert amounts[..] == Buckets(mods, current);
      spawned := SpawnBuckets(amounts, false, attacker, victim, 2);
    }

    /** `reform_augment`. */
    method ReformAugment(mods: seq<Modifier>, attacker: nat, victim: nat, current: uint32)
      returns (r: uint32, ghost spawned: seq<Spawn>)
      requires attacker in creatures && victim in creatures
      modifies this
      decreases 1, 2, 0
      ensures Worn(old(creatures), creatures)
      ensures Ranked(1, spawned)
      ensures r == current - Min(Wrap(SumValid(mods, current)), current)
      ensures Roots(spawned) == if Wrap(SumValid(mods, current)) == 0 then []
                                else BucketRoots(Buckets(mods, current), DAMAGE_TYPES, true, attacker, victim)
      ensures Trail(old(creatures), spawned, creatures)
    {
      r, spawned := current, [];
      NoTrail(creatures);
      if mods == [] { return; }
      var amounts, total := FillBuckets(mods, current, false);
      assert amounts[..] == Buckets(mods, current);
      if total == 0 { return; }
      total := Min(total, current);
      r := current - total;
      spawned := SpawnBuckets(amounts, true, attacker, victim, 1);
    }

    /** One of the four healing entries of `defense_augment`. */
    method DivertToHeal(m: ModifierSum, origin: Origin, stat: Stat, victim: nat, current: uint32)
      returns (r: uint32, ghost spawned: seq<Spawn>)
      requires victim in creatures
      modifies this
      ensures Ranked(1, spawned) && Trail(old(creatures), spawned, creatures) && r == Kept(current, m)
      ensures Roots(spawned) == HealRoot(current, m, origin, stat, victim)
      ensures creatures == HealedIn(old(creatures), victim, HealRoot(current, m, origin, stat, victim))
    {
      hide Percent;
      hide Healed;
      PercentFacts(current, m.percent);
      r, spawned := current, [];
      NoTrail(creatures);
      HealedInIsWorn(creatures, victim, []);
      if Active(m) {
        var amount := Share(current, m);
        r := current - amount;
        ghost var s := HealTarget(Combat(HEALING, amount, origin, true, false, true, false, false, stat), victim, victim);
        RankedOne(1, s);
        spawned := [s];
      }
    }

    /** The four healing entries, in their order. */
    method DivertAll(d: DefenseSums, victim: nat, current: uint32) returns (r: uint32, ghost spawned: seq<Spawn>)
      requires victim in creatures
      modifies this
      ensures Ranked(1, spawned) && Trail(old(creatures), spawned, creatures) && r == AfterHeals(current, d)
      ensures Roots(spawned) == HealRoots(current, d, victim)
      ensures creatures == HealedIn(old(creatures), victim, HealRoots(current, d, victim))
    {
      hide HealRoot;
      hide Kept;
      hide Share;
      hide Ranked;
      hide Roots;
      hide Trail;
      ghost var more, mid;
      ghost var was := creatures;
      r, spawned := DivertToHeal(d.absorb, Absorb, Health, victim, current);
      mid := creatures;
      r, more := DivertToHeal(d.restore, Restore, Mana, victim, r);
      Join(1, was, spawned, mid, more, creatures);
      HealedInTwice(was, victim, Roots(spawned), Roots(more));
      spawned := spawned + more;
      mid := creatures;
      r, more := DivertToHeal(d.replenish, Replenish, Stamina, victim, r);
      Join(1, was, spawned, mid, more, creatures);
      HealedInTwice(was, victim, Roots(spawned), Roots(more));
      spawned := spawned + more;
      mid := creatures;
      r, more := DivertToHeal(d.revive, Revive, Soul, victim, r);
      Join(1, was, spawned, mid, more, creatures);
      HealedInTwice(was, victim, Roots(spawned), Roots(more));
      spawned := spawned + more;
    }

    /** The part of `execute` that strikes, for true damage that nothing modifies: whoever stands in the area is
        hit, one after the other. */
    method ExecuteOnArea(c: Combat, caster: nat, on: seq<Bystander>) returns (ghost worlds: seq<World>, ghost dealt: seq<nat>)
      requires caster in creatures && IsLeaf(c)
      modifies this
      decreases 0, 6, 0
      ensures AreaStruck(worlds, on, c, dealt) && |worlds| == |on| + 1
      ensures worlds[0] == old(creatures) && worlds[|on|] == creatures
      ensures Worn(old(creatures), creatures)
    {
      hide Struck;
      hide AreaStruck;
      hide Kin;
      hide TellsAll;
      NobodyStruck(creatures, c);
      worlds, dealt := [creatures], [];
      StruckKeeps(creatures);
      for i := 0 to |on|
        invariant AreaStruck(worlds, on[..i], c, dealt) && |worlds| == i + 1
        invariant worlds[0] == old(creatures) && worlds[i] == creatures
        invariant Worn(old(creatures), creatures)
      {
        ghost var before, hit := creatures, 0;
        if on[i].id in creatures {
          var plan: Plan := *;
          ghost var below, facts, stages := StrikeTarget(c, caster, on[i].id, true, plan.(veto := on[i].veto));
          hit := facts.dealt;
          WornOn(old(creatures), before, creatures);
        }
        assert on[..i + 1] == on[..i] + [on[i]];
        OneMoreStruck(worlds, on[..i], c, dealt, on[i], creatures, hit);
        worlds, dealt := worlds + [creatures], dealt + [hit];
      }
      assert on[..|on|] == on;
    }

    lemma StruckKeeps(w: World)
      ensures Worn(w, w)
    {
    }

    /** `deflect_damage`: the amount is split over up to six expected targets, and a combat with both flags is
        executed on whoever stands in the area. */
    method DeflectDamage(defender: nat, amount: uint32, damageType: nat, on: seq<Bystander>)
      returns (ghost s: Spawn, ghost worlds: seq<World>, ghost dealt: seq<nat>)
      requires defender in creatures && damageType != HEALING && damageType != UNKNOWN
      modifies this
      decreases 1, 0, 0
      ensures s.root == Root(Combat(damageType, EachTarget(amount), Deflect, true, true, true, true, false, NoStat),
                             amount, defender, Area)
      ensures Fair(1, s) && s.before == old(creatures) && s.after == creatures
      ensures AreaStruck(worlds, on, s.root.combat, dealt) && worlds[0] == old(creatures) && worlds[|on|] == creatures
      ensures Worn(old(creatures), creatures)
    {
      var targets := Min(RoundedQuotient(amount, 50) + 1, 6);
      var each := Wrap(RoundedQuotient(amount, targets));
      var c := Combat(damageType, each, Deflect, true, true, true, true, false, NoStat);
      worlds, dealt := ExecuteOnArea(c, defender, on);
      s := Spawn(Root(c, amount, defender, Area), AreaAccount(on, worlds, dealt), old(creatures), creatures, []);
      FairArea(1, s);
    }

    /** `ricochetDamage`: nothing happens when no position around the defender is `open`. */
    method RicochetDamage(defender: nat, amount: uint32, damageType: nat, open: bool, on: seq<Bystander>)
      returns (r: uint32, ghost spawned: seq<Spawn>, ghost worlds: seq<World>, ghost dealt: seq<nat>)
      requires defender in creatures && damageType != HEALING && damageType != UNKNOWN
      modifies this
      decreases 1, 0, 0
      ensures Ranked(1, spawned) && r == if open then amount else 0
      ensures Roots(spawned) ==
              if open then [Root(Combat(damageType, amount, Ricochet, true, true, true, true, false, NoStat), amount, defender, Area)]
              else []
      ensures if open then AreaStruck(worlds, on, Roots(spawned)[0].combat, dealt) && worlds[0] == old(creatures) && worlds[|on|] == creatures
              else creatures == old(creatures)
      ensures Worn(old(creatures), creatures)
      ensures Trail(old(creatures), spawned, creatures)
    {
      worlds, dealt := [], [];
      NoTrail(creatures);
      if !open { return 0, [], [], []; }
      var c := Combat(damageType, amount, Ricochet, true, true, true, true, false, NoStat);
      worlds, dealt := ExecuteOnArea(c, defender, on);
      ghost var s := Spawn(Root(c, amount, defender, Area), AreaAccount(on, worlds, dealt), old(creatures), creatures, []);
      FairArea(1, s);
      RankedOne(1, s);
      r, spawned := amount, [s];
    }

    /** The reflect entry of `defense_augment`: the attacker is hit for what the victim is spared. */
    method ReflectPart(c: Combat, m: ModifierSum, attacker: nat, victim: nat, current: uint32, veto: bool)
      returns (r: uint32, ghost spawned: seq<Spawn>, ghost dealt: nat)
      requires attacker in creatures && victim in creatures && c.damageType != HEALING && c.damageType != UNKNOWN
      modifies this
      decreases 1, 0, 0
      ensures Ranked(1, spawned) && r == Kept(current, m)
      ensures Roots(spawned) == BounceRoot(current, m, c.damageType, Reflect, victim, On(attacker))
      ensures if Active(m) then Struck(old(creatures), creatures, attacker, c.damageType, Share(current, m), veto, dealt)
              else creatures == old(creatures)
      ensures Trail(old(creatures), spawned, creatures)
    {
      hide Percent;
      hide Struck;
      PercentFacts(current, m.percent);
      hide TellsAll;
      NoTrail(creatures);
      r, spawned, dealt := current, [], 0;
      if Active(m) {
        var amount := Share(current, m);
        r := current - amount;
        var reflect := Combat(c.damageType, amount, Reflect, true, true, true, true, false, NoStat);
        var plan: Plan := *;
        plan := plan.(veto := veto);
        ghost var below, facts, stages := StrikeTarget(reflect, victim, attacker, true, plan);
        ghost var s := Spawn(Root(reflect, amount, victim, On(attacker)), Account(plan, facts, stages), old(creatures), creatures, below);
        FairStrike(1, s);
        dealt := facts.dealt;
        RankedOne(1, s);
        spawned := [s];
      }
    }

    /** The deflect entry. */
    method DeflectPart(c: Combat, m: ModifierSum, victim: nat, current: uint32, on: seq<Bystander>)
      returns (r: uint32, ghost spawned: seq<Spawn>, ghost worlds: seq<World>, ghost dealt: seq<nat>)
      requires victim in creatures && c.damageType != HEALING && c.damageType != UNKNOWN
      modifies this
      decreases 1, 0, 1
      ensures Ranked(1, spawned) && r == Kept(current, m)
      ensures Roots(spawned) == BounceRoot(current, m, c.damageType, Deflect, victim, Area)
      ensures if Active(m) then
                AreaStruck(worlds, on, Roots(spawned)[0].combat, dealt) && worlds[0] == old(creatures) && worlds[|on|] == creatures
              else creatures == old(creatures)
      ensures Worn(old(creatures), creatures)
      ensures Trail(old(creatures), spawned, creatures)
    {
      hide Percent;
      hide EachTarget;
      hide AreaStruck;
      PercentFacts(current, m.percent);
      NoTrail(creatures);
      r, spawned, worlds, dealt := current, [], [], [];
      if Active(m) {
        var amount := Share(current, m);
        r := current - amount;
        ghost var s;
        s, worlds, dealt := DeflectDamage(victim, amount, c.damageType, on);
        RankedOne(1, s);
        spawned := [s];
      }
    }

    /** The reflect, deflect and ricochet entries of `defense_augment`. */
    method Bounce(c: Combat, p: DefensePlan, attacker: nat, victim: nat, current: uint32)
      returns (r: uint32, ghost spawned: seq<Spawn>)
      requires attacker in creatures && victim in creatures && c.damageType != HEALING && c.damageType != UNKNOWN
      modifies this
      decreases 1, 1, 0
      ensures Worn(old(creatures), creatures)
      ensures Ranked(1, spawned) && r == Bounced(current, p.sums, p.open)
      ensures Roots(spawned) == BounceRoots(current, p.sums, c.damageType, p.open, attacker, victim)
      ensures Trail(old(creatures), spawned, creatures)
    {
      hide Percent;
      hide EachTarget;
      hide BounceRoot;
      hide Kept;
      hide Share;
      hide Ranked;
      hide Roots;
      hide Struck;
      hide AreaStruck;
      hide Trail;
      ghost var more, hit, worlds, hits;
      var d := p.sums;
      BounceFacts(Kept(Kept(current, d.reflect), d.deflect), d.ricochet, c.damageType, victim);
      ghost var was := creatures;
      r, spawned, hit := ReflectPart(c, d.reflect, attacker, victim, current, p.reflectVeto);
      ReflectWorn(was, creatures, c, d.reflect, current, attacker, p.reflectVeto, hit);
      ghost var mid := creatures;
      ghost var first := spawned;
      r, more, worlds, hits := DeflectPart(c, d.deflect, victim, r, p.deflectedOn);
      WornOn(was, mid, creatures);
      Join(1, was, first, mid, more, creatures);
      spawned := first + more;
      if Active(d.ricochet) {
        mid := creatures;
        first := spawned;
        var amount;
        amount, more, worlds, hits := RicochetDamage(victim, Share(r, d.ricochet), c.damageType, p.open, p.ricochetOn);
        WornOn(was, mid, creatures);
        r := r - amount;
        Join(1, was, first, mid, more, creatures);
        spawned := first + more;
      }
    }

    /** `defense_augment`: every stage works on what the stage before it left. */
    method DefenseAugment(c: Combat, p: DefensePlan, attacker: nat, victim: nat, current: uint32)
      returns (r: uint32, ghost spawned: seq<Spawn>, ghost healed: World)
      requires attacker in creatures && victim in creatures && c.damageType != HEALING && c.damageType != UNKNOWN
      modifies this
      decreases 1, 2, 0
      ensures Ranked(1, spawned) && r == AfterSums(c, p.sums, p.open, current)
      ensures Roots(spawned) == SumsRoots(c, p.sums, p.open, current, attacker, victim)
      ensures healed == HealedIn(old(creatures), victim, HealRoots(Withstood(p.sums, current), p.sums, victim))
      ensures if c.bounce then creatures == healed else Worn(healed, creatures)
      ensures Worn(old(creatures), creatures)
      ensures Trail(old(creatures), spawned, creatures)
    {
      hide Percent;
      hide Weakened;
      hide Resisted;
      hide HealRoots;
      hide AfterHeals;
      hide BounceRoots;
      hide Bounced;
      hide Ranked;
      hide Roots;
      hide Trail;
      r := Weaken(current, p.sums.weakness);
      r := Resist(r, p.sums.resist);
      ghost var more;
      r, spawned := DivertAll(p.sums, victim, r);
      healed := creatures;
      HealedInIsWorn(old(creatures), victim, Roots(spawned));
      ghost var first := spawned;
      if c.bounce { return; }
      r, more := Bounce(c, p, attacker, victim, r);
      WornOn(old(creatures), healed, creatures);
      Join(1, old(creatures), first, healed, more, creatures);
      spawned := first + more;
    }

    /** One of the four entries of `process_steal`. */
    method StealOne(m: ModifierSum, damageType: nat, origin: Origin, attacker: nat, victim: nat, total: uint32, current: uint32)
      returns (r: uint32, ghost spawned: seq<Spawn>)
      requires attacker in creatures && victim in creatures && damageType != HEALING
      modifies this
      decreases 2, 0, 0
      ensures Worn(old(creatures), creatures)
      ensures Ranked(2, spawned) && r == Unstolen(current, total, m)
      ensures Roots(spawned) == StealRoot(current, total, m, damageType, origin, attacker, victim)
      ensures Trail(old(creatures), spawned, creatures)
    {
      hide PercentOf;
      hide Fair;
      NoTrail(creatures);
      r, spawned := current, [];
      if Active(m) {
        var asked := LeechAmount(total, m);
        if asked != 0 {
          var stolen := Min(asked, current);
          r := current - stolen;
          var c := Combat(damageType, stolen, origin, true, true, false, false, true, NoStat);
          ghost var s := Send(c, stolen, attacker, victim, 2);
          RankedOne(2, s);
          spawned := [s];
        }
      }
    }

    /** `process_steal`: all four ask for a share of the same total, in order, while damage lasts. */
    method ProcessSteal(steal: LeechData, attacker: nat, victim: nat, current: uint32)
      returns (r: uint32, ghost spawned: seq<Spawn>)
      requires attacker in creatures && victim in creatures
      modifies this
      decreases 2, 1, 0
      ensures Worn(old(creatures), creatures)
      ensures Ranked(2, spawned) && r == AfterSteal(current, steal)
      ensures Roots(spawned) == StealRoots(current, steal, attacker, victim)
      ensures Trail(old(creatures), spawned, creatures)
    {
      hide Ranked;
      hide Roots;
      hide Kin;
      hide LeechAmount;
      hide StealRoot;
      hide Unstolen;
      hide Trail;
      ghost var more, was, mid := [], creatures, creatures;
      r, spawned := StealOne(steal.health, LIFE_DRAIN, LifeSteal, attacker, victim, current, current);
      mid := creatures;
      r, more := StealOne(steal.mana, MANA_DRAIN, ManaSteal, attacker, victim, current, r);
      WornOn(was, mid, creatures);
      Join(2, was, spawned, mid, more, creatures);
      spawned := spawned + more;
      mid := creatures;
      r, more := StealOne(steal.stamina, UNDEFINED, StaminaSteal, attacker, victim, current, r);
      WornOn(was, mid, creatures);
      Join(2, was, spawned, mid, more, creatures);
      spawned := spawned + more;
      mid := creatures;
      r, more := StealOne(steal.soul, UNDEFINED, SoulSteal, attacker, victim, current, r);
      WornOn(was, mid, creatures);
      Join(2, was, spawned, mid, more, creatures);
      spawned := spawned + more;
    }

    /** One of the four entries of `post_damage`. */
    method LeechOne(m: ModifierSum, origin: Origin, stat: Stat, attacker: nat, total: uint32)
      returns (ghost spawned: seq<Spawn>)
      requires attacker in creatures
      modifies this
      ensures Ranked(2, spawned) && Trail(old(creatures), spawned, creatures)
      ensures Roots(spawned) == LeechRoot(total, m, origin, stat, attacker)
      ensures creatures == HealedIn(old(creatures), attacker, LeechRoot(total, m, origin, stat, attacker))
    {
      hide LeechAmount;
      hide Healed;
      NoTrail(creatures);
      spawned := [];
      HealedInIsWorn(creatures, attacker, []);
      if Active(m) && LeechAmount(total, m) != 0 {
        ghost var s := HealTarget(Combat(HEALING, LeechAmount(total, m), origin, true, false, false, false, true, stat),
                                  attacker, attacker);
        RankedOne(2, s);
        spawned := [s];
      }
    }

    /** The leech heals of `post_damage`, for the caster. */
    method PostDamage(c: Combat, leech: LeechData, attacker: nat, current: uint32)
      returns (ghost spawned: seq<Spawn>)
      requires attacker in creatures
      modifies this
      ensures Ranked(2, spawned) && Trail(old(creatures), spawned, creatures)
      ensures Roots(spawned) == if Leeches(c, old(creatures[attacker]).isPlayer, current) then LeechRoots(current, leech, attacker) else []
      ensures creatures == HealedIn(old(creatures), attacker, Roots(spawned))
      ensures c.leech || current == 128 || !old(creatures[attacker]).isPlayer || c.origin == Other(1) ==>
                spawned == [] && creatures == old(creatures)
      ensures !(c.leech || current == 128 || !old(creatures[attacker]).isPlayer || c.origin == Other(1)) ==>
                Roots(spawned) == LeechRoots(current, leech, attacker)
    {
      hide LeechRoot;
      hide Ranked;
      hide Roots;
      hide Trail;
      spawned := [];
      NothingSpawned(2);
      NoTrail(creatures);
      HealedInIsWorn(creatures, attacker, []);
      if c.leech || current == HEALING || !creatures[attacker].isPlayer || c.origin == Other(CONDITION_ORIGIN) {
        return;
      }
      ghost var more, was, mid := [], creatures, creatures;
      spawned := LeechOne(leech.health, LifeSteal, Health, attacker, current);
      mid := creatures;
      more := LeechOne(leech.mana, ManaSteal, Mana, attacker, current);
      Join(2, was, spawned, mid, more, creatures);
      HealedInTwice(was, attacker, Roots(spawned), Roots(more));
      spawned := spawned + more;
      mid := creatures;
      more := LeechOne(leech.stamina, StaminaSteal, Stamina, attacker, current);
      Join(2, was, spawned, mid, more, creatures);
      HealedInTwice(was, attacker, Roots(spawned), Roots(more));
      spawned := spawned + more;
      mid := creatures;
      more := LeechOne(leech.soul, SoulSteal, Soul, attacker, current);
      Join(2, was, spawned, mid, more, creatures);
      HealedInTwice(was, attacker, Roots(spawned), Roots(more));
      spawned := spawned + more;
    }

    /** The end of `accumulate_attack_mods`: piercing, then the critical hit. */
    method PierceAndCrit(c: Combat, p: AttackPlan, attacker: nat, victim: nat, current: uint32)
      returns (r: uint32, ghost spawned: seq<Spawn>)
      requires attacker in creatures && victim in creatures
      modifies this
      decreases 2, 0, 0
      ensures Worn(old(creatures), creatures)
      ensures Ranked(2, spawned)
      ensures Roots(spawned) == if c.trueDamage || !Active(p.piercing) then [] else [PierceRoot(current, p.piercing, attacker, victim)]
      ensures var left := if c.trueDamage || !Active(p.piercing) then current else Unstolen(current, current, p.piercing);
              r == if Active(p.critical) then Critted(left, p.critical) else left
      ensures Trail(old(creatures), spawned, creatures)
    {
      hide LeechAmount;
      hide Critted;
      hide Fair;
      NoTrail(creatures);
      r, spawned := current, [];
      if !c.trueDamage && Active(p.piercing) {
        var pierce, remaining := PenetrateDamage(r, p.piercing);
        ghost var s := Send(pierce, pierce.damage, attacker, victim, 2);
        RankedOne(2, s);
        spawned := [s];
        r := remaining;
      }
      if Active(p.critical) {
        r := ApplyCrit(r, p.critical);
      }
    }

    /** `accumulate_attack_mods`: conversion, piercing and critical, in this order. */
    method AccumulateAttackMods(c: Combat, attacker: nat, victim: nat, p: AttackPlan, current: uint32)
      returns (r: uint32, leech: LeechData, steal: LeechData, ghost attacks: bool, ghost spawned: seq<Spawn>)
      requires attacker in creatures && victim in creatures && creatures[attacker].isPlayer && c.damageType != HEALING
      modifies this
      decreases Rank(c), 3, 0
      ensures Worn(old(creatures), creatures)
      ensures Ranked(Rank(c), spawned)
      ensures attacks == Attacks(c, old(creatures[attacker]), p)
      ensures attacks <==> p.hasModifiers && !c.attackModified && (p.cost == 0 || old(creatures[attacker]).attackCharges >= p.cost)
      ensures attacks && p.conversions == [] && c.damageType != MANA_DRAIN && p.otherModifiers ==> leech == p.leech && steal == p.steal
      ensures attacks && (c.damageType == MANA_DRAIN || !p.otherModifiers) ==> leech == steal == NO_LEECH
      ensures attacks && p.conversions == [] && (c.damageType == MANA_DRAIN || !p.otherModifiers) ==> r == current && spawned == []
      ensures r == if attacks then AfterAttack(c, p, current) else current
      ensures Roots(spawned) == if attacks then AttackRoots(c, p, current, attacker, victim) else []
      ensures leech == if attacks && GoesOn(c, p, current) then p.leech else NO_LEECH
      ensures steal == if attacks && GoesOn(c, p, current) then p.steal else NO_LEECH
      ensures attacks ==> old(creatures)[attacker].attackCharges >= p.cost
      ensures Trail(if attacks then AttackPaid(old(creatures), attacker, p.cost) else old(creatures), spawned, creatures)
    {
      hide Ranked;
      hide Roots;
      hide Wrap;
      hide SumAll;
      hide BucketRoots;
      hide Buckets;
      hide PierceRoot;
      hide Unstolen;
      hide Critted;
      hide Kin;
      hide Trail;
      NothingSpawned(Rank(c));
      NoTrail(creatures);
      r, leech, steal, attacks, spawned := current, NO_LEECH, NO_LEECH, false, [];
      PaidIsWorn(creatures, attacker, p.cost);
      PaidIsWorn(creatures, attacker, 0);
      if !p.hasModifiers || c.attackModified { return; }
      var me := creatures[attacker];
      if p.cost != 0 && me.attackCharges < p.cost { return; }
      attacks := true;
      if p.cost > 0 {
        creatures := creatures[attacker := me.(attackCharges := me.attackCharges - p.cost)];
      }
      ghost var was, paid := old(creatures), creatures;
      NothingAsked(current, DAMAGE_TYPES, attacker, victim);
      var total;
      total, spawned := HandleConversion(p.conversions, attacker, victim, current);
      WornOn(was, paid, creatures);
      if total != 0 {
        r := if total >= current then 0 else current - total;
        if r == 0 { return; }
      }
      if c.damageType == MANA_DRAIN || !p.otherModifiers { return; }
      leech, steal := p.leech, p.steal;
      ghost var mid, more := creatures, [];
      r, more := PierceAndCrit(c, p, attacker, victim, r);
      WornOn(was, mid, creatures);
      Join(2, paid, spawned, mid, more, creatures);
      spawned := spawned + more;
    }

    /** Reform, then the other defense modifiers, if the victim has them and can pay for them. */
    method Defend(c: Combat, attacker: nat, victim: nat, p: DefensePlan, current: uint32)
      returns (r: uint32, ghost defends: bool, ghost spawned: seq<Spawn>)
      requires attacker in creatures && victim in creatures && c.damageType != HEALING && c.damageType != UNKNOWN
      modifies this
      decreases Rank(c), 3, 0
      ensures Worn(old(creatures), creatures)
      ensures Ranked(Rank(c), spawned)
      ensures defends == Defends(c, old(creatures[victim]), p)
      ensures defends <==> old(creatures[victim]).isPlayer && p.hasModifiers && !c.defenseModified
                           && (p.cost == 0 || old(creatures[victim]).defenseCharges >= p.cost)
      ensures r == if defends then AfterDefense(c, p, current) else current
      ensures Roots(spawned) == if defends then DefenseRoots(c, p, current, attacker, victim) else []
      ensures defends ==> old(creatures)[victim].defenseCharges >= p.cost
      ensures Trail(if defends then DefensePaid(old(creatures), victim, p.cost) else old(creatures), spawned, creatures)
    {
      hide Ranked;
      hide Roots;
      hide Wrap;
      hide SumValid;
      hide BucketRoots;
      hide Buckets;
      hide SumsRoots;
      hide AfterSums;
      hide Kin;
      hide Trail;
      NothingSpawned(Rank(c));
      NoTrail(creatures);
      NothingSpawned(1);
      r, defends, spawned := current, false, [];
      PaidIsWorn(creatures, victim, p.cost);
      PaidIsWorn(creatures, victim, 0);
      if !creatures[victim].isPlayer || !p.hasModifiers || c.defenseModified { return; }
      var it := creatures[victim];
      if p.cost != 0 && it.defenseCharges < p.cost { return; }
      defends := true;
      if p.cost > 0 {
        creatures := creatures[victim := it.(defenseCharges := it.defenseCharges - p.cost)];
      }
      ghost var was, paid := old(creatures), creatures;
      r, spawned := ReformAugment(p.reforms, attacker, victim, r);
      WornOn(was, paid, creatures);
      if p.otherModifiers {
        ghost var mid, more, healed := creatures, [], creatures;
        r, more, healed := DefenseAugment(c, p, attacker, victim, r);
        WornOn(was, mid, creatures);
        Join(1, paid, spawned, mid, more, creatures);
        spawned := spawned + more;
      }
      RankedUp(1, Rank(c), spawned);
    }

    /** The end of a strike: stealing, applying what is left, and leeching. */
    method FinishStrike(c: Combat, attacker: nat, victim: nat, leech: LeechData, steal: LeechData, veto: bool, current: uint32,
                        ghost byPlayer: bool)
      returns (ghost steals: seq<Spawn>, ghost struck: World, ghost dealt: nat, ghost hit: World, ghost leeches: seq<Spawn>)
      requires attacker in creatures && victim in creatures
      requires c.attackModified ==> leech == steal == NO_LEECH
      requires byPlayer == creatures[attacker].isPlayer
      modifies this
      decreases Rank(c), 3, 0
      ensures Worn(old(creatures), creatures)
      ensures Ranked(Rank(c), steals) && Ranked(Rank(c), leeches)
      ensures Roots(steals) == StealRoots(current, steal, attacker, victim) && Trail(old(creatures), steals, struck)
      ensures var applied := AfterSteal(current, steal);
              && Struck(struck, hit, victim, c.damageType, applied, veto, dealt) && attacker in hit
              && var roots := if dealt != 0 && Leeches(c, byPlayer, applied) then LeechRoots(applied, leech, attacker) else [];
                 Roots(leeches) == roots && Trail(hit, leeches, creatures) && creatures == HealedIn(hit, attacker, roots)
    {
      hide Ranked;
      hide Roots;
      hide Trail;
      hide StealRoots;
      hide LeechRoots;
      hide AfterSteal;
      hide TakesDamage;
      steals, leeches := [], [];
      NothingSpawned(Rank(c));
      NothingStolen(current, attacker, victim);
      NoTrail(creatures);
      ghost var was := creatures;
      var left := current;
      HealedInIsWorn(creatures, attacker, []);
      if steal != NO_LEECH {
        // an empty record steals nothing
        left, steals := ProcessSteal(steal, attacker, victim, current);
      }
      struck := creatures;
      NothingLeeched(left, attacker);
      var d := ApplyDamage(c.damageType, victim, left, veto);
      dealt, hit := d, creatures;
      StruckIsWorn(struck, hit, victim, c.damageType, left, veto, dealt);
      WornOn(was, struck, hit);
      HealedInIsWorn(hit, attacker, []);
      NoTrail(hit);
      if d != 0 && creatures[attacker].isPlayer && leech != NO_LEECH {
        // an empty record heals nobody
        leeches := PostDamage(c, leech, attacker, left);
        HealedInIsWorn(hit, attacker, Roots(leeches));
        WornOn(was, hit, creatures);
      }
    }

    /** What a strike does with the damage that came through `block`. */
    method DealDamage(c: Combat, attacker: nat, victim: nat, entered: uint32, plan: Plan)
      returns (ghost spawned: seq<Spawn>, ghost f: Facts, ghost t: Stages)
      requires attacker in creatures && victim in creatures && c.damageType != HEALING && c.damageType != UNKNOWN
      modifies this
      decreases Rank(c), 3, 1
      ensures Worn(old(creatures), creatures)
      ensures Ranked(Rank(c), spawned) && spawned == AllStages(t)
      ensures Tells(c, plan, f, t, old(creatures), creatures, entered, attacker, victim)
    {
      hide Ranked;
      hide Roots;
      hide Trail;
      hide AfterAttack;
      hide AfterDefense;
      hide AfterSteal;
      hide AttackRoots;
      hide DefenseRoots;
      hide StealRoots;
      hide LeechRoots;
      hide Leeches;
      hide GoesOn;
      hide Attacks;
      hide Defends;
      hide Struck;
      hide Kin;
      hide TellsEnd;
      ghost var was := creatures;
      var current, leech, steal := entered, NO_LEECH, NO_LEECH;
      ghost var press, attacks := [], false;
      NothingSpawned(Rank(c));
      NoTrail(creatures);
      PaidIsWorn(creatures, attacker, 0);
      NoAttack(c, creatures[attacker], plan.attack);
      f := Facts(creatures[attacker].isPlayer, false, false, 0);
      if creatures[attacker].isPlayer {
        current, leech, steal, attacks, press := AccumulateAttackMods(c, attacker, victim, plan.attack, entered);
        f := f.(attacks := attacks);
        if current == 0 {
          t := Stages(press, creatures, [], creatures, [], creatures, creatures, []);
          spawned := AllStages(t);
          RankedAll(Rank(c), t);
          return;
        }
      }
      ghost var pressed, parry, defends := creatures, [], false;
      current, defends, parry := Defend(c, attacker, victim, plan.defense, current);
      f := f.(defends := defends);
      WornOn(was, pressed, creatures);
      ghost var parried := creatures;
      WornPlayer(was, parried, attacker);
      ghost var steals, struck, dealt, hit, leeches := FinishStrike(c, attacker, victim, leech, steal, plan.veto, current, f.byPlayer);
      f := f.(dealt := dealt);
      WornOn(was, parried, creatures);
      t := Stages(press, pressed, parry, parried, steals, struck, hit, leeches);
      ToldEnd(c, plan, f, t, creatures, entered, attacker, victim, current, steal, leech);
      spawned := AllStages(t);
      RankedAll(Rank(c), t);
    }

    /** `strike_target`, for attackers and victims of either kind. `plan` answers all that the strike asks of
        the world around it. */
    method StrikeTarget(c: Combat, attacker: nat, victim: nat, skipValidation: bool, plan: Plan)
      returns (ghost spawned: seq<Spawn>, ghost f: Facts, ghost t: Stages)
      requires attacker in creatures && victim in creatures
      modifies this
      decreases Rank(c), 4, 0
      ensures Worn(old(creatures), creatures)
      ensures Ranked(Rank(c), spawned)
      ensures Roots(spawned) == AllRoots(c, plan, f, skipValidation, attacker, victim)
      ensures TellsAll(c, plan, f, t, spawned, skipValidation, old(creatures), creatures, attacker, victim)
      ensures c.damageType != UNKNOWN && c.damageType != HEALING && (skipValidation || plan.valid) && (c.trueDamage || !plan.blocked) ==>
                Roots(spawned) ==
                CombatTables.Strike(c, plan, f, if c.trueDamage then c.damage else plan.unblocked, attacker, victim).1
      ensures IsLeaf(c) && skipValidation ==>
                Struck(old(creatures), creatures, victim, c.damageType, c.damage, plan.veto, f.dealt)
      ensures c.damageType == UNKNOWN
              || (c.damageType != HEALING && ((!skipValidation && !plan.valid) || (!c.trueDamage && plan.blocked))) ==>
                spawned == [] && creatures == old(creatures)
      ensures c.damageType != UNKNOWN && c.damageType != HEALING && (skipValidation || plan.valid) && (c.trueDamage || !plan.blocked)
              && !plan.attack.hasModifiers && !plan.defense.hasModifiers ==>
                spawned == [] && Struck(old(creatures), creatures, victim, c.damageType,
                                        if c.trueDamage then c.damage else plan.unblocked, plan.veto, f.dealt)
    {
      hide Ranked;
      hide Roots;
      hide Tells;
      hide Struck;
      hide Kin;
      NothingSpawned(Rank(c));
      PaidIsWorn(creatures, attacker, 0);
      spawned, f := [], Facts(false, false, false, 0);
      t := Stages([], creatures, [], creatures, [], creatures, creatures, []);
      if c.damageType == UNKNOWN { return; }
      if c.damageType == HEALING {
        ghost var s := HealTarget(c, attacker, victim);
        HealedInIsWorn(old(creatures), victim, [s.root]);
        return;
      }
      if !skipValidation && !plan.valid { return; }
      if !c.trueDamage && plan.blocked { return; }
      spawned, f, t := DealDamage(c, attacker, victim, if c.trueDamage then c.damage else plan.unblocked, plan);
      ToldRoots(c, plan, f, t, spawned, skipValidation, old(creatures), creatures, attacker, victim);
      CombatTables.ToldByTables(c, plan, f, t, spawned, skipValidation, old(creatures), creatures, attacker, victim);
      if IsLeaf(c) && skipValidation { LeafStrikes(c, plan, f, t, old(creatures), creatures, attacker, victim); }
      if !plan.attack.hasModifiers && !plan.defense.hasModifiers {
        PlainStrikes(c, plan, f, t, old(creatures), creatures, if c.trueDamage then c.damage else plan.unblocked, attacker, victim);
      }
    }
  }

  lemma RankedAll(rank: nat, t: Stages)
    requires Ranked(rank, t.press) && Ranked(rank, t.parry) && Ranked(rank, t.steal) && Ranked(rank, t.leech)
    ensures Ranked(rank, AllStages(t))
  {
    hide Fair;
  }

  lemma WornPlayer(before: World, after: World, id: nat)
    requires Worn(before, after) && id in before
    ensures id in after && after[id].isPlayer == before[id].isPlayer
  {
  }

  lemma NoAttack(c: Combat, me: Creature, p: AttackPlan)
    ensures !me.isPlayer || c.attackModified ==> !Attacks(c, me, p)
  {
  }

  lemma ReflectWorn(before: World, after: World, c: Combat, m: ModifierSum, current: uint32, attacker: nat, veto: bool, dealt: nat)
    requires if Active(m) then Struck(before, after, attacker, c.damageType, Share(current, m), veto, dealt) else after == before
    ensures Worn(before, after)
  {
  }

  /** A strike that creates damage: a player hits for 10, a combat of 20 comes out of it, and nothing is dealt. */
  method StrikeTwentyOutOfTen(victim: Creature) returns (battle: Battle, ghost spawned: seq<Spawn>, ghost f: Facts)
    ensures Roots(spawned) == [Root(Combat(1, 20, None, false, true, false, false, false, NoStat), 20, 0, On(1))]
    ensures f.dealt == 0
    ensures !Conserves(Combat(1, 10, None, true, false, false, false, false, NoStat), FlatConversion(20, 1), f, 10, 0, 1)
  {
    var player := Creature(true, 100, 100, 0, 0, 0, 0, 0, false, 0, 0);
    battle := new Battle(map[0 := player, 1 := victim]);
    var c := Combat(1, 10, None, true, false, false, false, false, NoStat);
    ghost var stages, before;
    before := battle.creatures;
    spawned, f, stages := battle.StrikeTarget(c, 0, 1, true, FlatConversion(20, 1));
    TwentyToldOf(c, f, stages, before, battle.creatures);
  }

  lemma TwentyToldOf(c: Combat, f: Facts, t: Stages, before: World, after: World)
    requires Tells(c, FlatConversion(20, 1), f, t, before, after, 10, 0, 1)
    requires before[0].isPlayer && !c.attackModified && c.damageType != UNKNOWN && c.damageType != HEALING && c.trueDamage && c.damage == 10
    ensures AllRoots(c, FlatConversion(20, 1), f, true, 0, 1) ==
            [Root(Combat(1, 20, None, false, true, false, false, false, NoStat), 20, 0, On(1))]
    ensures f.dealt == 0 && !Conserves(c, FlatConversion(20, 1), f, 10, 0, 1)
  {
    hide Conserves;
    hide StrikeRoots;
    hide TellsEnd;
    hide Trail;
    TwentyOutOfTen(c, f.defends, f.dealt, 0, 1);
    assert f == Facts(true, true, f.defends, f.dealt);
  }
}
