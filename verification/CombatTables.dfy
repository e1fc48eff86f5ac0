/** A strike a second time, as tables: each line of a table is one modifier entry with the combat it sends, and a walk
    down the table does the arithmetic in plain numbers. The plan of a strike comes to the same. */
module CombatTables {
  import opened Words
  import opened CombatPlans
  import opened CombatTrails

  /** What an entry asks for, the combat it sends (its damage is still to be filled in), and whom it is meant for. */
  datatype Line = Line(sum: ModifierSum, send: Combat, target: Target)

  // ---------------------------------------------------------------- the defense

  function Heals(origin: Origin, stat: Stat): Combat {
    Combat(128, 0, origin, true, false, true, false, false, stat)
  }

  function Bounces(damageType: nat, origin: Origin): Combat {
    Combat(damageType, 0, origin, true, true, true, true, false, NoStat)
  }

  /** Absorb, restore, replenish and revive heal the victim in health, mana, stamina and soul; reflect goes to the attacker, deflect
      and, where a position is open, ricochet into an area. What has bounced does not bounce again. */
  function DefenseTable(d: DefenseSums, damageType: nat, bounced: bool, open: bool, attacker: nat, victim: nat): seq<Line> {
    [Line(d.absorb, Heals(Absorb, Health), On(victim)), Line(d.restore, Heals(Restore, Mana), On(victim)),
     Line(d.replenish, Heals(Replenish, Stamina), On(victim)), Line(d.revive, Heals(Revive, Soul), On(victim))]
    + (if bounced then []
       else [Line(d.reflect, Bounces(damageType, Reflect), On(attacker)), Line(d.deflect, Bounces(damageType, Deflect), Area)]
            + if open then [Line(d.ricochet, Bounces(damageType, Ricochet), Area)] else [])
  }

  /** Each line takes its share of what the one before it left: a percentage and a flat part, at most all of it. */
  function Walk(lines: seq<Line>, amount: uint32, caster: nat): (uint32, seq<Root>) {
    if lines == [] then (amount, [])
    else
      var line := lines[0];
      var asked := amount * line.sum.percent / 100 + line.sum.flat;
      var taken: uint32 := if asked < amount then asked else amount;
      var damage := if line.send.origin == Deflect then EachTarget(taken) else taken;
      var sent := if line.sum == ModifierSum(0, 0) then [] else [Root(line.send.(damage := damage), taken, caster, line.target)];
      var (left, rest) := Walk(lines[1..], amount - taken, caster);
      (left, sent + rest)
  }

  // ---------------------------------------------------------------- stealing and leeching

  function Steals(damageType: nat, origin: Origin): Combat {
    Combat(damageType, 0, origin, true, true, false, false, true, NoStat)
  }

  function StealTable(s: LeechData, victim: nat): seq<Line> {
    [Line(s.health, Steals(32, LifeSteal), On(victim)), Line(s.mana, Steals(64, ManaSteal), On(victim)),
     Line(s.stamina, Steals(16, StaminaSteal), On(victim)), Line(s.soul, Steals(16, SoulSteal), On(victim))]
  }

  function Leech(origin: Origin, stat: Stat): Combat {
    Combat(128, 0, origin, true, false, false, false, true, stat)
  }

  function LeechTable(l: LeechData, attacker: nat): seq<Line> {
    [Line(l.health, Leech(LifeSteal, Health), On(attacker)), Line(l.mana, Leech(ManaSteal, Mana), On(attacker)),
     Line(l.stamina, Leech(StaminaSteal, Stamina), On(attacker)), Line(l.soul, Leech(SoulSteal, Soul), On(attacker))]
  }

  /** A percentage and a flat part, in 32-bit numbers. */
  function Asks(total: uint32, m: ModifierSum): uint32 {
    (total * m.percent % 0x1_0000_0000 / 100 + m.flat) % 0x1_0000_0000
  }

  /** Each line asks for a share of the same total, and takes it off what is left. */
  function StealWalk(lines: seq<Line>, total: uint32, amount: uint32, caster: nat): (uint32, seq<Root>) {
    if lines == [] then (amount, [])
    else
      var line, asked := lines[0], Asks(total, lines[0].sum);
      var taken: uint32 := if asked < amount then asked else amount;
      var sent := if asked == 0 then [] else [Root(line.send.(damage := taken), taken, caster, line.target)];
      var (left, rest) := StealWalk(lines[1..], total, amount - taken, caster);
      (left, sent + rest)
  }

  /** Each line sends its share of the total, and takes nothing. */
  function LeechWalk(lines: seq<Line>, total: uint32, caster: nat): seq<Root> {
    if lines == [] then []
    else
      var line, asked := lines[0], Asks(total, lines[0].sum);
      (if asked == 0 then [] else [Root(line.send.(damage := asked), asked, caster, line.target)])
      + LeechWalk(lines[1..], total, caster)
  }

  // ---------------------------------------------------------------- conversion and reform

  const KINDS: seq<nat> := [1, 2, 4, 8, 16, 32, 64, 128, 256, 512, 1024, 2048]

  /** One combat for each of the first `n` types that the modifiers ask something for. A conversion to healing heals health;
      what a reform sends is not reformed again. */
  function KindWalk(mods: seq<Modifier>, current: uint32, n: nat, reform: bool, attacker: nat, victim: nat): seq<Root>
    requires n <= 12
  {
    if n == 0 then []
    else
      var amount: uint32 := SumFor(mods, current, n - 1) % 0x1_0000_0000;
      var send := Combat(KINDS[n - 1], amount, if reform then Augment else None, false, true, reform, false, false,
                         if n == 8 && !reform then Health else NoStat);
      KindWalk(mods, current, n - 1, reform, attacker, victim)
      + if amount == 0 then [] else [Root(send, amount, attacker, On(victim))]
  }

  // ---------------------------------------------------------------- the whole strike

  function Less(amount: uint32, n: nat): uint32 {
    if n < amount then amount - n else 0
  }

  /** Percentage and flat part on top, in 32-bit numbers. */
  function Crits(amount: uint32, m: ModifierSum): uint32 {
    OnTop(amount, amount * m.percent, m.flat)
  }

  function OnTop(amount: uint32, product: nat, flat: uint32): uint32 {
    ((amount + product % 0x1_0000_0000 / 100) % 0x1_0000_0000 + flat) % 0x1_0000_0000
  }

  /** The attack: conversion, piercing of what that left, and a critical hit of what remains; whether it got past the
      conversion. */
  function Attacked(c: Combat, p: AttackPlan, entered: uint32, attacker: nat, victim: nat): (uint32, bool, seq<Root>) {
    var asked := SumAll(p.conversions, entered) % 0x1_0000_0000;
    var left := Less(entered, asked);
    var converted := KindWalk(p.conversions, entered, 12, false, attacker, victim);
    if (asked != 0 && left == 0) || c.damageType == 64 || !p.otherModifiers then (left, false, converted)
    else
      var pierces := !c.trueDamage && p.piercing != ModifierSum(0, 0);
      var behind := if pierces then Less(left, Asks(left, p.piercing)) else left;
      var pierced: uint32 := left - behind;
      (Crits(behind, p.critical), true,
       converted + if pierces then [Root(Combat(16, pierced, Piercing, true, true, false, false, false, NoStat), pierced, attacker, On(victim))]
                   else [])
  }

  /** The defense: reform, then weakness and resistance, then the table. */
  function Defended(c: Combat, p: DefensePlan, current: uint32, attacker: nat, victim: nat): (uint32, seq<Root>) {
    var asked := SumValid(p.reforms, current) % 0x1_0000_0000;
    var reformed := if asked == 0 then [] else KindWalk(p.reforms, current, 12, true, attacker, victim);
    if !p.otherModifiers then (Less(current, asked), reformed)
    else
      var kept := Resisted(Weakened(Less(current, asked), p.sums.weakness), p.sums.resist);
      var (left, sent) := Walk(DefenseTable(p.sums, c.damageType, c.bounce, p.open, attacker, victim), kept, victim);
      (left, reformed + sent)
  }

  /** What is applied to the victim, and all that is spawned. Leech entries heal for damage that was dealt, by a player's
      strike that is no leech itself and does not come from a condition, unless it is of exactly 128. */
  function Strike(c: Combat, plan: Plan, f: Facts, entered: uint32, attacker: nat, victim: nat): (uint32, seq<Root>) {
    var (pressed, past, first) :=
      if f.attacks then Attacked(c, plan.attack, entered, attacker, victim) else (entered, false, []);
    if f.byPlayer && pressed == 0 then (0, first)
    else
      var (parried, second) := if f.defends then Defended(c, plan.defense, pressed, attacker, victim) else (pressed, []);
      var (applied, stolen) := if past then StealWalk(StealTable(plan.attack.steal, victim), parried, parried, attacker) else (parried, []);
      var leeched :=
        if past && f.dealt != 0 && f.byPlayer && !c.leech && applied != 128 && c.origin != Other(1) then
          LeechWalk(LeechTable(plan.attack.leech, attacker), applied, attacker)
        else [];
      (applied, first + (second + (stolen + leeched)))
  }

  // ---------------------------------------------------------------- the plan comes to the same

  /** What one line sends. */
  function SentBy(line: Line, amount: uint32, caster: nat): seq<Root> {
    var taken := Share(amount, line.sum);
    var damage := if line.send.origin == Deflect then EachTarget(taken) else taken;
    if Active(line.sum) then [Root(line.send.(damage := damage), taken, caster, line.target)] else []
  }

  lemma WalkOne(line: Line, rest: seq<Line>, amount: uint32, caster: nat)
    ensures var (left, sent) := Walk(rest, Kept(amount, line.sum), caster);
            Walk([line] + rest, amount, caster) == (left, SentBy(line, amount, caster) + sent)
  {
    assert ([line] + rest)[1..] == rest;
    ShareIs(amount, line.sum);
    assert Active(line.sum) <==> line.sum != ModifierSum(0, 0);
  }

  lemma WalkLast(line: Line, amount: uint32, caster: nat)
    ensures Walk([line], amount, caster) == (Kept(amount, line.sum), SentBy(line, amount, caster))
  {
    WalkOne(line, [], amount, caster);
    assert [line] + [] == [line];
    assert SentBy(line, amount, caster) + [] == SentBy(line, amount, caster);
  }

  lemma SentIsHealed(m: ModifierSum, origin: Origin, stat: Stat, amount: uint32, victim: nat)
    requires origin != Deflect
    ensures SentBy(Line(m, Heals(origin, stat), On(victim)), amount, victim) == HealRoot(amount, m, origin, stat, victim)
  {
  }

  lemma SentIsBounced(m: ModifierSum, damageType: nat, origin: Origin, amount: uint32, victim: nat, target: Target)
    ensures SentBy(Line(m, Bounces(damageType, origin), target), amount, victim) ==
            BounceRoot(amount, m, damageType, origin, victim, target)
  {
  }

  lemma WalkBounces(d: DefenseSums, damageType: nat, open: bool, amount: uint32, attacker: nat, victim: nat)
    ensures var last := if open then [Line(d.ricochet, Bounces(damageType, Ricochet), Area)] else [];
            var lines := [Line(d.reflect, Bounces(damageType, Reflect), On(attacker)), Line(d.deflect, Bounces(damageType, Deflect), Area)];
            Walk(lines + last, amount, victim) == (Bounced(amount, d, open), BounceRoots(amount, d, damageType, open, attacker, victim))
  {
    var reflect, deflect := Line(d.reflect, Bounces(damageType, Reflect), On(attacker)), Line(d.deflect, Bounces(damageType, Deflect), Area);
    var ricochet := Line(d.ricochet, Bounces(damageType, Ricochet), Area);
    var a := Kept(amount, d.reflect);
    var b := Kept(a, d.deflect);
    SentIsBounced(d.reflect, damageType, Reflect, amount, victim, On(attacker));
    SentIsBounced(d.deflect, damageType, Deflect, a, victim, Area);
    SentIsBounced(d.ricochet, damageType, Ricochet, b, victim, Area);
    hide Bounces;
    hide SentBy;
    hide BounceRoot;
    hide Kept;
    if open {
      assert [reflect, deflect] + [ricochet] == [reflect] + ([deflect] + [ricochet]);
      WalkOne(reflect, [deflect] + [ricochet], amount, victim);
      WalkOne(deflect, [ricochet], a, victim);
      WalkLast(ricochet, b, victim);
      hide Walk;
      var x, y, z := SentBy(reflect, amount, victim), SentBy(deflect, a, victim), SentBy(ricochet, b, victim);
      assert x + (y + z) == x + y + z;
    } else {
      assert [reflect, deflect] + [] == [reflect] + [deflect];
      WalkOne(reflect, [deflect], amount, victim);
      WalkLast(deflect, a, victim);
      hide Walk;
      var x, y := SentBy(reflect, amount, victim), SentBy(deflect, a, victim);
      assert x + y == x + y + [];
    }
  }

  lemma WalkHeals(d: DefenseSums, rest: seq<Line>, amount: uint32, victim: nat)
    ensures var lines := [Line(d.absorb, Heals(Absorb, Health), On(victim)), Line(d.restore, Heals(Restore, Mana), On(victim)),
                          Line(d.replenish, Heals(Replenish, Stamina), On(victim)), Line(d.revive, Heals(Revive, Soul), On(victim))];
            var (left, sent) := Walk(rest, AfterHeals(amount, d), victim);
            Walk(lines + rest, amount, victim) == (left, HealRoots(amount, d, victim) + sent)
  {
    var absorb, restore := Line(d.absorb, Heals(Absorb, Health), On(victim)), Line(d.restore, Heals(Restore, Mana), On(victim));
    var replenish, revive := Line(d.replenish, Heals(Replenish, Stamina), On(victim)), Line(d.revive, Heals(Revive, Soul), On(victim));
    var a := Kept(amount, d.absorb);
    var b := Kept(a, d.restore);
    var r := Kept(b, d.replenish);
    SentIsHealed(d.absorb, Absorb, Health, amount, victim);
    SentIsHealed(d.restore, Restore, Mana, a, victim);
    SentIsHealed(d.replenish, Replenish, Stamina, b, victim);
    SentIsHealed(d.revive, Revive, Soul, r, victim);
    hide Heals;
    hide Kept;
    hide SentBy;
    hide HealRoot;
    WalkOne(absorb, [restore] + ([replenish] + ([revive] + rest)), amount, victim);
    WalkOne(restore, [replenish] + ([revive] + rest), a, victim);
    WalkOne(replenish, [revive] + rest, b, victim);
    WalkOne(revive, rest, r, victim);
    hide Walk;
    assert [absorb, restore, replenish, revive] + rest == [absorb] + ([restore] + ([replenish] + ([revive] + rest)));
    var sent := Walk(rest, Kept(r, d.revive), victim).1;
    Regroup(SentBy(absorb, amount, victim), SentBy(restore, a, victim), SentBy(replenish, b, victim), SentBy(revive, r, victim), sent);
  }

  lemma Regroup<T>(w: seq<T>, x: seq<T>, y: seq<T>, z: seq<T>, rest: seq<T>)
    ensures w + (x + (y + (z + rest))) == w + x + y + z + rest
  {
  }

  /** Weakened and resisted damage goes down the table. */
  lemma DefenseInOrder(c: Combat, d: DefenseSums, open: bool, current: uint32, attacker: nat, victim: nat)
    ensures Walk(DefenseTable(d, c.damageType, c.bounce, open, attacker, victim), Resisted(Weakened(current, d.weakness), d.resist), victim)
            == (AfterSums(c, d, open, current), SumsRoots(c, d, open, current, attacker, victim))
  {
    var kept := Withstood(d, current);
    var rest := DefenseTable(d, c.damageType, c.bounce, open, attacker, victim)[4..];
    WalkHeals(d, rest, kept, victim);
    hide Resisted;
    hide Weakened;
    hide AfterHeals;
    hide HealRoots;
    hide BounceRoots;
    hide Bounced;
    if c.bounce {
      assert rest == [];
    } else {
      WalkBounces(d, c.damageType, open, AfterHeals(kept, d), attacker, victim);
      assert rest == [Line(d.reflect, Bounces(c.damageType, Reflect), On(attacker)), Line(d.deflect, Bounces(c.damageType, Deflect), Area)]
                     + if open then [Line(d.ricochet, Bounces(c.damageType, Ricochet), Area)] else [];
    }
    hide Bounces;
    hide Heals;
  }

  lemma AsksIs(total: uint32, m: ModifierSum)
    ensures Asks(total, m) == LeechAmount(total, m)
    ensures !Active(m) ==> Asks(total, m) == 0
  {
    LeechAmountIs(total, m);
    if m.percent == 0 { assert total * m.percent == 0; }
  }

  lemma StealOne(line: Line, rest: seq<Line>, total: uint32, amount: uint32, attacker: nat, victim: nat)
    requires line.target == On(victim) && line.send == Steals(line.send.damageType, line.send.origin)
    ensures var (left, sent) := StealWalk(rest, total, Unstolen(amount, total, line.sum), attacker);
            StealWalk([line] + rest, total, amount, attacker) ==
            (left, StealRoot(amount, total, line.sum, line.send.damageType, line.send.origin, attacker, victim) + sent)
  {
    assert ([line] + rest)[1..] == rest;
    AsksIs(total, line.sum);
    hide Asks;
    hide LeechAmount;
    hide Active;
  }

  lemma StealLast(line: Line, total: uint32, amount: uint32, attacker: nat, victim: nat)
    requires line.target == On(victim) && line.send == Steals(line.send.damageType, line.send.origin)
    ensures StealWalk([line], total, amount, attacker) ==
            (Unstolen(amount, total, line.sum), StealRoot(amount, total, line.sum, line.send.damageType, line.send.origin, attacker, victim))
  {
    StealOne(line, [], total, amount, attacker, victim);
    assert [line] + [] == [line];
    hide Unstolen;
    hide StealRoot;
    var r := StealRoot(amount, total, line.sum, line.send.damageType, line.send.origin, attacker, victim);
    assert r + [] == r;
  }

  lemma StealsInOrder(total: uint32, s: LeechData, attacker: nat, victim: nat)
    ensures StealWalk(StealTable(s, victim), total, total, attacker) == (AfterSteal(total, s), StealRoots(total, s, attacker, victim))
  {
    hide Unstolen;
    hide StealRoot;
    hide StealWalk;
    var health, mana := Line(s.health, Steals(32, LifeSteal), On(victim)), Line(s.mana, Steals(64, ManaSteal), On(victim));
    var stamina, soul := Line(s.stamina, Steals(16, StaminaSteal), On(victim)), Line(s.soul, Steals(16, SoulSteal), On(victim));
    var a := Unstolen(total, total, s.health);
    var b := Unstolen(a, total, s.mana);
    var d := Unstolen(b, total, s.stamina);
    StealOne(health, [mana] + ([stamina] + [soul]), total, total, attacker, victim);
    StealOne(mana, [stamina] + [soul], total, a, attacker, victim);
    StealOne(stamina, [soul], total, b, attacker, victim);
    StealLast(soul, total, d, attacker, victim);
    assert StealTable(s, victim) == [health] + ([mana] + ([stamina] + [soul]));
    hide StealTable;
    hide Steals;
    var w, x := StealRoot(total, total, s.health, LIFE_DRAIN, LifeSteal, attacker, victim),
                StealRoot(a, total, s.mana, MANA_DRAIN, ManaSteal, attacker, victim);
    var y, z := StealRoot(b, total, s.stamina, UNDEFINED, StaminaSteal, attacker, victim),
                StealRoot(d, total, s.soul, UNDEFINED, SoulSteal, attacker, victim);
    assert w + (x + (y + z)) == w + x + y + z;
  }

  lemma LeechOne(line: Line, rest: seq<Line>, total: uint32, attacker: nat)
    requires line.target == On(attacker) && line.send == Leech(line.send.origin, line.send.heals)
    ensures LeechWalk([line] + rest, total, attacker) ==
            LeechRoot(total, line.sum, line.send.origin, line.send.heals, attacker) + LeechWalk(rest, total, attacker)
  {
    assert ([line] + rest)[1..] == rest;
    AsksIs(total, line.sum);
    hide Asks;
    hide LeechAmount;
    hide Active;
  }

  lemma LeechesInOrder(total: uint32, l: LeechData, attacker: nat)
    ensures LeechWalk(LeechTable(l, attacker), total, attacker) == LeechRoots(total, l, attacker)
  {
    var t := LeechTable(l, attacker);
    LeechOne(t[0], [t[1]] + ([t[2]] + ([t[3]] + [])), total, attacker);
    LeechOne(t[1], [t[2]] + ([t[3]] + []), total, attacker);
    LeechOne(t[2], [t[3]] + [], total, attacker);
    LeechOne(t[3], [], total, attacker);
    hide LeechRoot;
    hide Leech;
    assert t == [t[0]] + ([t[1]] + ([t[2]] + ([t[3]] + [])));
    Regroup(LeechRoot(total, l.health, LifeSteal, Health, attacker), LeechRoot(total, l.mana, ManaSteal, Mana, attacker),
            LeechRoot(total, l.stamina, StaminaSteal, Stamina, attacker), LeechRoot(total, l.soul, SoulSteal, Soul, attacker), []);
  }

  lemma {:induction false} KindsInOrder(mods: seq<Modifier>, current: uint32, n: nat, reform: bool, attacker: nat, victim: nat)
    requires n <= 12
    ensures KindWalk(mods, current, n, reform, attacker, victim) == BucketRoots(Buckets(mods, current), n, reform, attacker, victim)
  {
    if n == 0 {
    } else {
      KindsInOrder(mods, current, n - 1, reform, attacker, victim);
      KindIs(n - 1);
      WrapIs(SumFor(mods, current, n - 1));
      hide SumFor;
      hide PowerOfTwo;
    }
  }

  lemma KindIs(i: nat)
    requires i < 12
    ensures PowerOfTwo(i) == KINDS[i] && (KINDS[i] == 128 <==> i == 7)
  {
    TypeBits();
    var kinds := seq(DAMAGE_TYPES, k requires 0 <= k < DAMAGE_TYPES => PowerOfTwo(k));
    assert kinds[i] == PowerOfTwo(i);
    hide PowerOfTwo;
  }

  lemma AttackInOrder(c: Combat, p: AttackPlan, entered: uint32, attacker: nat, victim: nat)
    ensures Attacked(c, p, entered, attacker, victim) ==
            (AfterAttack(c, p, entered), GoesOn(c, p, entered), AttackRoots(c, p, entered, attacker, victim))
  {
    hide KindWalk;
    hide BucketRoots;
    hide Buckets;
    hide SumAll;
    hide Asks;
    hide LeechAmount;
    hide Critted;
    hide Active;
    hide Unstolen;
    hide PierceRoot;
    hide Less;
    hide Converted;
    hide GoesOn;
    hide Crits;
    var asked := SumAll(p.conversions, entered) % 0x1_0000_0000;
    var left := Less(entered, asked);
    var converted := KindWalk(p.conversions, entered, 12, false, attacker, victim);
    KindsInOrder(p.conversions, entered, 12, false, attacker, victim);
    PastConversion(c, p, entered);
    PiercingIs(left, p.piercing, attacker, victim);
    CritIs(Less(left, Asks(left, p.piercing)), p.critical);
    CritIs(left, p.critical);
    assert converted + [] == converted;
  }

  lemma PastConversion(c: Combat, p: AttackPlan, entered: uint32)
    ensures var asked := SumAll(p.conversions, entered) % 0x1_0000_0000;
            var left := Less(entered, asked);
            && left == entered - Converted(p, entered)
            && (GoesOn(c, p, entered) <==> !((asked != 0 && left == 0) || c.damageType == 64 || !p.otherModifiers))
  {
    WrapIs(SumAll(p.conversions, entered));
    hide SumAll;
  }

  lemma PiercingIs(left: uint32, m: ModifierSum, attacker: nat, victim: nat)
    ensures Active(m) <==> m != ModifierSum(0, 0)
    ensures var behind := Less(left, Asks(left, m));
            && (Active(m) ==> Unstolen(left, left, m) == behind)
            && behind <= left
            && PierceRoot(left, m, attacker, victim) ==
               Root(Combat(16, left - behind, Piercing, true, true, false, false, false, NoStat), left - behind, attacker, On(victim))
  {
    AsksIs(left, m);
    hide Asks;
    hide LeechAmount;
  }

  lemma CritIs(current: uint32, m: ModifierSum)
    ensures Critted(current, m) == Crits(current, m)
    ensures !Active(m) ==> Crits(current, m) == current
  {
    hide OnTop;
    hide Wrap;
    hide Add;
    OnTopIs(current, current * m.percent, m.flat);
    OnTopIs(current, 0, 0);
    if !Active(m) { assert current * m.percent == 0; }
  }

  lemma OnTopIs(current: uint32, product: nat, flat: uint32)
    ensures Add(Add(current, Wrap(product) / 100), flat) == OnTop(current, product, flat)
    ensures product == 0 && flat == 0 ==> OnTop(current, product, flat) == current
  {
    WrapIs(product);
    WrapIs(current + product % 0x1_0000_0000 / 100);
    WrapIs((current + product % 0x1_0000_0000 / 100) % 0x1_0000_0000 + flat);
    hide Wrap;
  }

  lemma DefendedIs(c: Combat, p: DefensePlan, current: uint32, attacker: nat, victim: nat)
    ensures Defended(c, p, current, attacker, victim) == (AfterDefense(c, p, current), DefenseRoots(c, p, current, attacker, victim))
  {
    hide KindWalk;
    hide BucketRoots;
    hide Buckets;
    hide SumValid;
    hide Walk;
    hide DefenseTable;
    hide AfterSums;
    hide SumsRoots;
    hide Weakened;
    hide Resisted;
    var left := current - Reformed(p, current);
    WrapIs(SumValid(p.reforms, current));
    assert left == Less(current, SumValid(p.reforms, current) % 0x1_0000_0000);
    hide Less;
    KindsInOrder(p.reforms, current, 12, true, attacker, victim);
    DefenseInOrder(c, p.sums, p.open, left, attacker, victim);
    var reformed := ReformRoots(p, current, attacker, victim);
    assert reformed + [] == reformed;
  }

  lemma EndIs(c: Combat, steal: LeechData, leech: LeechData, f: Facts, current: uint32, attacker: nat, victim: nat)
    ensures var (applied, stolen) := StealWalk(StealTable(steal, victim), current, current, attacker);
            var leeches := f.dealt != 0 && f.byPlayer && !c.leech && applied != 128 && c.origin != Other(1);
            && applied == AfterSteal(current, steal)
            && FinishRoots(c, steal, leech, f, current, attacker, victim) ==
               stolen + if leeches then LeechWalk(LeechTable(leech, attacker), applied, attacker) else []
  {
    StealsInOrder(current, steal, attacker, victim);
    LeechesInOrder(AfterSteal(current, steal), leech, attacker);
    hide AfterSteal;
    hide StealRoots;
    hide LeechRoots;
    hide StealWalk;
    hide LeechWalk;
    hide StealTable;
    hide LeechTable;
  }

  /** For every plan of a strike, what it applies to the victim and all it spawns, in order, is what the tables give. */
  lemma StrikeByTables(c: Combat, plan: Plan, f: Facts, entered: uint32, attacker: nat, victim: nat)
    ensures Strike(c, plan, f, entered, attacker, victim) ==
            (Applied(c, plan, f, entered), StrikeRoots(c, plan, f, entered, attacker, victim))
  {
    hide Attacked;
    hide AfterAttack;
    hide AttackRoots;
    hide GoesOn;
    hide Defended;
    hide AfterDefense;
    hide DefenseRoots;
    hide StealWalk;
    hide StealTable;
    hide LeechWalk;
    hide LeechTable;
    hide AfterSteal;
    hide FinishRoots;
    AttackInOrder(c, plan.attack, entered, attacker, victim);
    var pressed, parried := Pressed(c, plan, f, entered), Parried(c, plan, f, entered);
    DefendedIs(c, plan.defense, pressed, attacker, victim);
    NothingAtTheEnd(c, f, parried, attacker, victim);
    EndIs(c, plan.attack.steal, plan.attack.leech, f, parried, attacker, victim);
    var first := PressRoots(c, plan, f, entered, attacker, victim);
    assert first + [] == first;
    var none: seq<Root> := [];
    assert none + none == none;
    if Stops(c, plan, f, entered) {
    } else if f.attacks && GoesOn(c, plan.attack, entered) {
      assert Stealing(c, plan, f, entered) == plan.attack.steal && Leeching(c, plan, f, entered) == plan.attack.leech;
    } else {
      assert Stealing(c, plan, f, entered) == Leeching(c, plan, f, entered) == NO_LEECH;
    }
  }

  lemma NothingAtTheEnd(c: Combat, f: Facts, current: uint32, attacker: nat, victim: nat)
    ensures AfterSteal(current, NO_LEECH) == current && FinishRoots(c, NO_LEECH, NO_LEECH, f, current, attacker, victim) == []
  {
    NothingStolen(current, attacker, victim);
    NothingLeeched(current, attacker);
  }

  /** A strike that comes to dealing damage, as it went: its facts are those of its two sides, it has spawned what the
      tables give, and unless a player's strike ran out of damage the victim is hit for what the tables leave. */
  lemma ToldByTables(c: Combat, plan: Plan, f: Facts, t: Stages, spawned: seq<Spawn>, skipValidation: bool,
                     before: World, after: World, attacker: nat, victim: nat)
    requires TellsAll(c, plan, f, t, spawned, skipValidation, before, after, attacker, victim)
    requires c.damageType != 0 && c.damageType != 128 && (skipValidation || plan.valid) && (c.trueDamage || !plan.blocked)
    ensures attacker in before && f.byPlayer == before[attacker].isPlayer
    ensures var p := plan.attack;
            f.attacks <==> before[attacker].isPlayer && p.hasModifiers && !c.attackModified
                           && (p.cost == 0 || before[attacker].attackCharges >= p.cost)
    ensures var entered := if c.trueDamage then c.damage else plan.unblocked;
            var (applied, roots) := Strike(c, plan, f, entered, attacker, victim);
            var pressed := if f.attacks then Attacked(c, plan.attack, entered, attacker, victim).0 else entered;
            && Roots(spawned) == roots
            && if f.byPlayer && pressed == 0 then f.dealt == 0 && after == t.pressed
               else Struck(t.struck, t.hit, victim, c.damageType, applied, plan.veto, f.dealt)
  {
    hide Strike;
    hide Struck;
    hide Applied;
    hide Roots;
    hide Trail;
    hide PressRoots;
    hide ParryRoots;
    hide HealedIn;
    hide Stolen;
    hide Leeched;
    hide Attacked;
    hide AfterAttack;
    hide Defends;
    hide AllStages;
    var entered := Entering(c, plan);
    StrikeByTables(c, plan, f, entered, attacker, victim);
    AttackInOrder(c, plan.attack, entered, attacker, victim);
    hide StrikeRoots;
    ToldRoots(c, plan, f, t, spawned, skipValidation, before, after, attacker, victim);
  }
}
