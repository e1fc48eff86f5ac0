/** What one strike of src/combat.cpp does with its damage, as functions of the modifiers that apply: who is
    handed how much at each stage, and when damage is conserved. Damage is 32-bit and wraps where the
    source lets it. */
module CombatPlans {
  import opened Words

  /** 32-bit addition. */
  function Add(a: nat, b: nat): uint32 {
    Wrap(a + b)
  }

  lemma AddWraps(a: nat, b: nat)
    ensures Add(Wrap(a), b) == Wrap(a + b)
  {
  }

  function Min(a: nat, b: nat): nat {
    if a < b then a else b
  }

  // Combat::DamageType is a bit set; these are the values the pipeline tests for.
  const UNKNOWN: nat := 0
  const UNDEFINED: nat := 16
  const LIFE_DRAIN: nat := 32
  const MANA_DRAIN: nat := 64
  const HEALING: nat := 128
  const DAMAGE_TYPES: nat := 12

  const CONDITION_ORIGIN: nat := 1

  datatype Origin = None | Other(code: nat) | Augment | Absorb | Restore | Replenish | Revive
                  | Reflect | Deflect | Ricochet | Piercing | LifeSteal | ManaSteal | StaminaSteal | SoulSteal

  datatype Stat = NoStat | Health | Mana | Stamina | Soul

  /** The part of a combat object the pipeline reads. `bounce` stands for the three flags
      IsReflect, IsDeflect and IsRicochet; `heals` for the four stat-target flags. */
  datatype Combat = Combat(
    damageType: nat,
    damage: uint32,
    origin: Origin,
    trueDamage: bool,
    attackModified: bool,
    defenseModified: bool,
    bounce: bool,
    leech: bool,
    heals: Stat)

  /** True damage that nothing modifies any more: what reflect, deflect and ricochet send. */
  predicate IsLeaf(c: Combat) {
    Rank(c) == 0 && c.trueDamage && c.damageType != UNKNOWN && c.damageType != HEALING
  }

  /** How many more generations of strikes a combat can start. */
  function Rank(c: Combat): nat {
    if !c.attackModified then 2 else if !c.defenseModified then 1 else 0
  }

  /** A damage modifier; `percent` is its value read as per cent unless `flat`. */
  datatype Modifier = Modifier(value: nat, flat: bool, toType: nat)

  datatype ModifierSum = ModifierSum(percent: uint32, flat: uint32)

  // ---------------------------------------------------------------- sums over conversions

  function TrailingZeros(mask: nat): nat {
    if mask == 0 then 32 else if mask % 2 == 1 then 0 else 1 + TrailingZeros(mask / 2)
  }

  /** What one conversion or reform modifier asks for: 64-bit product, truncated to 32 bits. */
  function ValueOf(m: Modifier, current: uint32): uint32 {
    Wrap(if m.flat then m.value else Percent(current, m.value))
  }

  predicate ValidType(m: Modifier) {
    TrailingZeros(m.toType) < DAMAGE_TYPES
  }

  function SumFor(mods: seq<Modifier>, current: uint32, index: nat): nat {
    if mods == [] then 0
    else
      var last := mods[|mods| - 1];
      SumFor(mods[..|mods| - 1], current, index) + (if TrailingZeros(last.toType) == index then ValueOf(last, current) else 0)
  }

  function SumAll(mods: seq<Modifier>, current: uint32): nat {
    if mods == [] then 0 else SumAll(mods[..|mods| - 1], current) + ValueOf(mods[|mods| - 1], current)
  }

  function SumValid(mods: seq<Modifier>, current: uint32): nat {
    if mods == [] then 0
    else
      var last := mods[|mods| - 1];
      SumValid(mods[..|mods| - 1], current) + (if ValidType(last) then ValueOf(last, current) else 0)
  }

  function SumTypes(mods: seq<Modifier>, current: uint32, n: nat): nat {
    if n == 0 then 0 else SumTypes(mods, current, n - 1) + SumFor(mods, current, n - 1)
  }

  lemma {:induction false} SumTypesSnoc(mods: seq<Modifier>, current: uint32, n: nat)
    requires mods != []
    ensures var last := mods[|mods| - 1];
            SumTypes(mods, current, n) == SumTypes(mods[..|mods| - 1], current, n)
                                          + (if TrailingZeros(last.toType) < n then ValueOf(last, current) else 0)
  {
    if n == 0 {
    } else {
      SumTypesSnoc(mods, current, n - 1);
    }
  }

  /** The twelve buckets hold what the modifiers with a valid type ask for. */
  lemma {:induction false} BucketsHoldValid(mods: seq<Modifier>, current: uint32)
    ensures SumTypes(mods, current, DAMAGE_TYPES) == SumValid(mods, current)
  {
    if mods == [] {
      EmptyBuckets(current, DAMAGE_TYPES);
    } else {
      BucketsHoldValid(mods[..|mods| - 1], current);
      SumTypesSnoc(mods, current, DAMAGE_TYPES);
    }
  }

  lemma {:induction false} EmptyBuckets(current: uint32, n: nat)
    ensures SumTypes([], current, n) == 0
  {
    if n == 0 {
    } else {
      EmptyBuckets(current, n - 1);
    }
  }

  lemma {:induction false} SumsOrdered(mods: seq<Modifier>, current: uint32, index: nat)
    ensures index < DAMAGE_TYPES ==> SumFor(mods, current, index) <= SumValid(mods, current)
    ensures SumValid(mods, current) <= SumAll(mods, current)
    ensures SumValid(mods, current) == SumAll(mods, current)
            <==> forall i :: 0 <= i < |mods| ==> ValidType(mods[i]) || ValueOf(mods[i], current) == 0
  {
    if mods == [] {
    } else {
      SumsOrdered(mods[..|mods| - 1], current, index);
    }
  }

  lemma WrapZero()
    ensures Wrap(0) == 0
  {
  }

  /** The first loop of `handle_conversion` (all values count towards the total) and of
      `reform_augment` (values of invalid types are skipped). */
  method FillBuckets(mods: seq<Modifier>, current: uint32, countInvalid: bool)
    returns (amounts: array<uint32>, total: uint32)
    ensures fresh(amounts) && amounts.Length == DAMAGE_TYPES
    ensures forall k :: 0 <= k < DAMAGE_TYPES ==> amounts[k] == Wrap(SumFor(mods, current, k))
    ensures total == Wrap(if countInvalid then SumAll(mods, current) else SumValid(mods, current))
  {
    hide Wrap;
    hide Add;
    hide ValueOf;
    WrapZero();
    amounts := new uint32[DAMAGE_TYPES](_ => 0);
    total := 0;
    for i := 0 to |mods|
      invariant forall k :: 0 <= k < DAMAGE_TYPES ==> amounts[k] == Wrap(SumFor(mods[..i], current, k))
      invariant total == Wrap(if countInvalid then SumAll(mods[..i], current) else SumValid(mods[..i], current))
    {
      assert mods[..i + 1][..i] == mods[..i];
      var index, value := TrailingZeros(mods[i].toType), ValueOf(mods[i], current);
      if index < DAMAGE_TYPES {
        AddWraps(SumFor(mods[..i], current, index), value);
        amounts[index] := Add(amounts[index], value);
      }
      if index < DAMAGE_TYPES || countInvalid {
        AddWraps(if countInvalid then SumAll(mods[..i], current) else SumValid(mods[..i], current), value);
        total := Add(total, value);
      }
    }
    assert mods[..|mods|] == mods;
  }

  /** Without overflow the buckets hold exactly what the modifiers with a valid type ask for. */
  lemma BucketsSum(mods: seq<Modifier>, current: uint32, amounts: seq<uint32>)
    requires |amounts| == DAMAGE_TYPES
    requires forall k :: 0 <= k < DAMAGE_TYPES ==> amounts[k] == Wrap(SumFor(mods, current, k))
    ensures SumValid(mods, current) <= SumAll(mods, current)
    ensures SumValid(mods, current) < TWO32 ==> SumUpTo(amounts, DAMAGE_TYPES) == SumValid(mods, current)
  {
    SumsOrdered(mods, current, 0);
    if SumValid(mods, current) < TWO32 {
      BucketsUpTo(mods, current, amounts, DAMAGE_TYPES);
      BucketsHoldValid(mods, current);
    }
  }

  lemma {:induction false} BucketsUpTo(mods: seq<Modifier>, current: uint32, amounts: seq<uint32>, n: nat)
    requires n <= |amounts| == DAMAGE_TYPES && SumValid(mods, current) < TWO32
    requires forall k :: 0 <= k < DAMAGE_TYPES ==> amounts[k] == Wrap(SumFor(mods, current, k))
    ensures SumUpTo(amounts, n) == SumTypes(mods, current, n)
  {
    if n == 0 {
    } else {
      BucketsUpTo(mods, current, amounts, n - 1);
      SumsOrdered(mods, current, n - 1);
    }
  }

  function PowerOfTwo(i: nat): nat {
    if i == 0 then 1 else 2 * PowerOfTwo(i - 1)
  }

  /** The type a bucket goes out under has exactly the bit of the bucket set, and is the only such type. */
  lemma {:induction false} BucketType(i: nat, toType: nat)
    ensures TrailingZeros(PowerOfTwo(i)) == i && PowerOfTwo(i) > 0
    ensures PowerOfTwo(0) == 1 && PowerOfTwo(i + 1) == 2 * PowerOfTwo(i)
    ensures (exists k :: toType == PowerOfTwo(k)) && TrailingZeros(toType) == i ==> toType == PowerOfTwo(i)
  {
    TypeOfBit(i);
    if exists k :: toType == PowerOfTwo(k) {
      var k :| toType == PowerOfTwo(k);
      TypeOfBit(k);
    }
  }

  lemma {:induction false} TypeOfBit(i: nat)
    ensures TrailingZeros(PowerOfTwo(i)) == i && PowerOfTwo(i) > 0
  {
    if i == 0 {
    } else {
      TypeOfBit(i - 1);
      assert PowerOfTwo(i) / 2 == PowerOfTwo(i - 1) && PowerOfTwo(i) % 2 == 0;
    }
  }

  /** The type bits are the twelve powers of two from 1 to 2048. */
  lemma TypeBits()
    ensures seq(DAMAGE_TYPES, i requires 0 <= i < DAMAGE_TYPES => PowerOfTwo(i)) ==
            [1, 2, 4, 8, 16, 32, 64, 128, 256, 512, 1024, 2048]
  {
    assert PowerOfTwo(4) == 16;
    assert PowerOfTwo(8) == 256;
    assert PowerOfTwo(11) == 2048;
  }

  /** A bucket that holds something was fed by a modifier that asks for something and whose target type has the bit
      of the bucket as its lowest one. */
  lemma {:induction false} FedByItsType(mods: seq<Modifier>, current: uint32, index: nat) returns (k: nat)
    requires SumFor(mods, current, index) != 0
    ensures k < |mods| && TrailingZeros(mods[k].toType) == index && ValueOf(mods[k], current) != 0
  {
    var last := |mods| - 1;
    if TrailingZeros(mods[last].toType) == index && ValueOf(mods[last], current) != 0 {
      k := last;
    } else {
      k := FedByItsType(mods[..last], current, index);
    }
  }

  /** So a combat that leaves a bucket carries the target type of a modifier that fed it, types being single bits. */
  lemma SpawnedType(mods: seq<Modifier>, current: uint32, index: nat) returns (k: nat)
    requires index < DAMAGE_TYPES && Wrap(SumFor(mods, current, index)) != 0
    requires forall j :: 0 <= j < |mods| ==> mods[j].toType == 0 || exists b :: mods[j].toType == PowerOfTwo(b)
    ensures k < |mods| && PowerOfTwo(index) == mods[k].toType && ValueOf(mods[k], current) != 0
  {
    hide ValueOf;
    k := FedByItsType(mods, current, index);
    assert TrailingZeros(0) == 32;
    BucketType(index, mods[k].toType);
  }

  function SumUpTo(amounts: seq<uint32>, n: nat): nat
    requires n <= |amounts|
  {
    if n == 0 then 0 else SumUpTo(amounts, n - 1) + amounts[n - 1]
  }

  // ---------------------------------------------------------------- creatures

  const MAX_STAMINA: nat := 2520

  datatype Creature = Creature(
    isPlayer: bool,
    health: nat,
    maxHealth: nat,
    mana: uint32,
    maxMana: uint32,
    stamina: nat,
    soul: nat,
    maxSoul: nat,
    manaShield: bool,
    attackCharges: uint32,
    defenseCharges: uint32)

  type World = map<nat, Creature>

  /** `after` is what strikes and heals can make of `before`: neither the kind of creature nor its limits change,
      and charges are only spent. */
  predicate Kin(before: Creature, after: Creature) {
    && after.isPlayer == before.isPlayer && after.maxHealth == before.maxHealth && after.maxMana == before.maxMana
    && after.maxSoul == before.maxSoul && after.manaShield == before.manaShield
    && after.attackCharges <= before.attackCharges && after.defenseCharges <= before.defenseCharges
  }

  ghost predicate Worn(before: World, after: World) {
    after.Keys == before.Keys && forall id :: id in before ==> Kin(before[id], after[id])
  }

  datatype LeechData = LeechData(health: ModifierSum, mana: ModifierSum, stamina: ModifierSum, soul: ModifierSum)

  const NO_SUM: ModifierSum := ModifierSum(0, 0)
  const NO_LEECH: LeechData := LeechData(NO_SUM, NO_SUM, NO_SUM, NO_SUM)

  datatype DefenseSums = DefenseSums(
    weakness: ModifierSum, resist: ModifierSum,
    absorb: ModifierSum, restore: ModifierSum, replenish: ModifierSum, revive: ModifierSum,
    reflect: ModifierSum, deflect: ModifierSum, ricochet: ModifierSum)

  predicate Active(m: ModifierSum) {
    m.percent > 0 || m.flat > 0
  }

  /** `amount * percent / 100` in arithmetic wide enough for it. */
  function Percent(amount: nat, percent: nat): nat {
    amount * percent / 100
  }

  /** The same in 32-bit arithmetic. */
  function PercentOf(amount: uint32, percent: uint32): uint32 {
    Wrap(amount * percent) / 100
  }

  /** The 32-bit product does not wrap. */
  predicate Fits(amount: uint32, percent: uint32) {
    amount * percent < TWO32
  }

  lemma PercentFacts(amount: uint32, percent: uint32)
    ensures Fits(amount, percent) ==> PercentOf(amount, percent) == Percent(amount, percent)
    ensures percent == 0 ==> PercentOf(amount, percent) == Percent(amount, percent) == 0
  {
    if percent == 0 { assert amount * percent == 0; }
  }

  /** What a leech or steal entry asks for. */
  function LeechAmount(total: uint32, m: ModifierSum): uint32 {
    Add(PercentOf(total, m.percent), m.flat)
  }

  /** What a defensive entry takes: computed in 64 bits, and never more than there is. */
  function Share(current: uint32, m: ModifierSum): uint32 {
    Min(Percent(current, m.percent) + m.flat, current)
  }

  /** What a defensive entry leaves; an inactive one leaves everything. */
  function Kept(current: uint32, m: ModifierSum): uint32 {
    current - Share(current, m)
  }

  function AfterHeals(current: uint32, d: DefenseSums): uint32 {
    Kept(Kept(Kept(Kept(current, d.absorb), d.restore), d.replenish), d.revive)
  }

  function Bounced(current: uint32, d: DefenseSums, open: bool): uint32 {
    var afterDeflect := Kept(Kept(current, d.reflect), d.deflect);
    if open then Kept(afterDeflect, d.ricochet) else afterDeflect
  }

  /** What a steal entry leaves; all of them ask for a share of the same `total`. */
  function Unstolen(current: uint32, total: uint32, m: ModifierSum): uint32 {
    current - (if Active(m) then Min(LeechAmount(total, m), current) else 0)
  }

  function AfterSteal(total: uint32, s: LeechData): uint32 {
    Unstolen(Unstolen(Unstolen(Unstolen(total, total, s.health), total, s.mana), total, s.stamina), total, s.soul)
  }

  // ---------------------------------------------------------------- who gets what

  /** A spawned combat strikes or heals one creature, or whoever stands in an area. */
  datatype Target = On(id: nat) | Area

  /** A spawned combat, the amount of damage handed to it, who sends it and whom it is meant for. */
  datatype Root = Root(combat: Combat, amount: nat, caster: nat, target: Target)

  function Hand(roots: seq<Root>): nat {
    if roots == [] then 0 else Hand(roots[..|roots| - 1]) + roots[|roots| - 1].amount
  }

  lemma {:induction false} HandConcat(a: seq<Root>, b: seq<Root>)
    ensures Hand(a + b) == Hand(a) + Hand(b)
  {
    if b == [] {
      assert a + b == a;
    } else {
      HandConcat(a, b[..|b| - 1]);
      assert (a + b)[..|a + b| - 1] == a + b[..|b| - 1];
    }
  }

  lemma HandOne(r: Root)
    ensures Hand([r]) == r.amount && Hand([]) == 0
  {
    assert [r][..0] == [];
  }

  /** What one healing entry of the defense hands to the victim. */
  function HealRoot(current: uint32, m: ModifierSum, origin: Origin, stat: Stat, victim: nat): seq<Root> {
    if Active(m) then
      var amount := Share(current, m);
      [Root(Combat(HEALING, amount, origin, true, false, true, false, false, stat), amount, victim, On(victim))]
    else []
  }

  /** The four of them, each on what the one before it left. */
  function HealRoots(current: uint32, d: DefenseSums, victim: nat): seq<Root> {
    var afterAbsorb := Kept(current, d.absorb);
    var afterRestore := Kept(afterAbsorb, d.restore);
    var afterReplenish := Kept(afterRestore, d.replenish);
    HealRoot(current, d.absorb, Absorb, Health, victim) + HealRoot(afterAbsorb, d.restore, Restore, Mana, victim)
    + HealRoot(afterRestore, d.replenish, Replenish, Stamina, victim) + HealRoot(afterReplenish, d.revive, Revive, Soul, victim)
  }

  /** A combat that goes back, or on: true damage of the same type that nothing modifies any more. */
  function BounceRoot(current: uint32, m: ModifierSum, damageType: nat, origin: Origin, victim: nat, target: Target): seq<Root> {
    if Active(m) then
      var amount := Share(current, m);
      var each := if origin == Deflect then EachTarget(amount) else amount;
      [Root(Combat(damageType, each, origin, true, true, true, true, false, NoStat), amount, victim, target)]
    else []
  }

  lemma BounceFacts(current: uint32, m: ModifierSum, damageType: nat, victim: nat)
    ensures !Active(m) ==> Kept(current, m) == current && BounceRoot(current, m, damageType, Ricochet, victim, Area) == []
    ensures Kept(current, m) == current - Share(current, m)
    ensures Active(m) ==>
              BounceRoot(current, m, damageType, Ricochet, victim, Area) ==
              [Root(Combat(damageType, Share(current, m), Ricochet, true, true, true, true, false, NoStat),
                    Share(current, m), victim, Area)]
  {
    PercentFacts(current, m.percent);
  }

  /** What the victim sends back to the attacker, and into areas. */
  function BounceRoots(current: uint32, d: DefenseSums, damageType: nat, open: bool, attacker: nat, victim: nat): seq<Root> {
    var afterReflect := Kept(current, d.reflect);
    var afterDeflect := Kept(afterReflect, d.deflect);
    BounceRoot(current, d.reflect, damageType, Reflect, victim, On(attacker))
    + BounceRoot(afterReflect, d.deflect, damageType, Deflect, victim, Area)
    + if open then BounceRoot(afterDeflect, d.ricochet, damageType, Ricochet, victim, Area) else []
  }

  /** How many creatures a deflected amount is meant for: one more for each 50, and at most six. */
  function Targets(amount: uint32): (r: nat)
    ensures 1 <= r <= 6
  {
    Min(RoundedQuotient(amount, 50) + 1, 6)
  }

  function EachTarget(amount: uint32): uint32 {
    Wrap(RoundedQuotient(amount, Targets(amount)))
  }

  /** Half away from zero, as `std::round` does. */
  function RoundedQuotient(a: nat, b: nat): nat
    requires b > 0
  {
    (2 * a + b) / (2 * b)
  }

  /** One steal entry: true damage of its own kind, which does not leech. */
  function StealRoot(current: uint32, total: uint32, m: ModifierSum, damageType: nat, origin: Origin,
                     attacker: nat, victim: nat): seq<Root>
  {
    if Active(m) && LeechAmount(total, m) != 0 then
      var stolen := Min(LeechAmount(total, m), current);
      [Root(Combat(damageType, stolen, origin, true, true, false, false, true, NoStat), stolen, attacker, On(victim))]
    else []
  }

  function StealRoots(total: uint32, s: LeechData, attacker: nat, victim: nat): seq<Root> {
    var afterHealth := Unstolen(total, total, s.health);
    var afterMana := Unstolen(afterHealth, total, s.mana);
    var afterStamina := Unstolen(afterMana, total, s.stamina);
    StealRoot(total, total, s.health, LIFE_DRAIN, LifeSteal, attacker, victim)
    + StealRoot(afterHealth, total, s.mana, MANA_DRAIN, ManaSteal, attacker, victim)
    + StealRoot(afterMana, total, s.stamina, UNDEFINED, StaminaSteal, attacker, victim)
    + StealRoot(afterStamina, total, s.soul, UNDEFINED, SoulSteal, attacker, victim)
  }

  lemma NothingStolen(total: uint32, attacker: nat, victim: nat)
    ensures StealRoots(total, NO_LEECH, attacker, victim) == [] && AfterSteal(total, NO_LEECH) == total
  {
  }

  /** One leech entry: a heal of the caster, on top of the damage done. */
  function LeechRoot(total: uint32, m: ModifierSum, origin: Origin, stat: Stat, attacker: nat): seq<Root> {
    if Active(m) && LeechAmount(total, m) != 0 then
      var amount := LeechAmount(total, m);
      [Root(Combat(HEALING, amount, origin, true, false, false, false, true, stat), amount, attacker, On(attacker))]
    else []
  }

  function LeechRoots(total: uint32, l: LeechData, attacker: nat): seq<Root> {
    LeechRoot(total, l.health, LifeSteal, Health, attacker) + LeechRoot(total, l.mana, ManaSteal, Mana, attacker)
    + LeechRoot(total, l.stamina, StaminaSteal, Stamina, attacker) + LeechRoot(total, l.soul, SoulSteal, Soul, attacker)
  }

  lemma NothingLeeched(total: uint32, attacker: nat)
    ensures LeechRoots(total, NO_LEECH, attacker) == []
  {
  }

  /** Nothing leeches on a leech or steal, nor on a condition; nor, the way the source compares, on a hit
      of just 128. */
  predicate Leeches(c: Combat, byPlayer: bool, current: uint32) {
    !c.leech && current != HEALING && byPlayer && c.origin != Other(CONDITION_ORIGIN)
  }

  /** What `penetrateDamage` splits off. */
  function PierceRoot(current: uint32, m: ModifierSum, attacker: nat, victim: nat): Root {
    var amount := Min(LeechAmount(current, m), current);
    Root(Combat(UNDEFINED, amount, Piercing, true, true, false, false, false, NoStat), amount, attacker, On(victim))
  }

  /** One combat for each of the first `n` buckets that is not empty, of the type of the bucket. */
  function BucketRoots(amounts: seq<uint32>, n: nat, reform: bool, attacker: nat, victim: nat): seq<Root>
    requires n <= |amounts|
  {
    if n == 0 then []
    else
      BucketRoots(amounts, n - 1, reform, attacker, victim)
      + if amounts[n - 1] == 0 then [] else [BucketRoot(amounts[n - 1], n - 1, reform, attacker, victim)]
  }

  function BucketRoot(amount: uint32, i: nat, reform: bool, attacker: nat, victim: nat): Root {
    var kind := PowerOfTwo(i);
    Root(Combat(kind, amount, if reform then Augment else None, false, true, reform, false, false,
                if !reform && kind == HEALING then Health else NoStat), amount, attacker, On(victim))
  }

  /** The combats hand on what the buckets hold. */
  lemma {:induction false} BucketsHandOn(amounts: seq<uint32>, n: nat, reform: bool, attacker: nat, victim: nat)
    requires n <= |amounts|
    ensures Hand(BucketRoots(amounts, n, reform, attacker, victim)) == SumUpTo(amounts, n)
  {
    if n == 0 {
    } else {
      BucketsHandOn(amounts, n - 1, reform, attacker, victim);
      var last := if amounts[n - 1] == 0 then [] else [BucketRoot(amounts[n - 1], n - 1, reform, attacker, victim)];
      HandConcat(BucketRoots(amounts, n - 1, reform, attacker, victim), last);
      HandOne(BucketRoot(amounts[n - 1], n - 1, reform, attacker, victim));
    }
  }

  /** What each of the twelve buckets holds. */
  function Buckets(mods: seq<Modifier>, current: uint32): (r: seq<uint32>)
    ensures |r| == DAMAGE_TYPES
  {
    seq(DAMAGE_TYPES, k requires 0 <= k < DAMAGE_TYPES => Wrap(SumFor(mods, current, k)))
  }

  lemma {:induction false} NothingAsked(current: uint32, n: nat, attacker: nat, victim: nat)
    requires n <= DAMAGE_TYPES
    ensures Wrap(SumAll([], current)) == 0 && BucketRoots(Buckets([], current), n, false, attacker, victim) == []
  {
    if n == 0 {
    } else {
      NothingAsked(current, n - 1, attacker, victim);
    }
  }

  // ---------------------------------------------------------------- single stages

  /** `penetrateDamage`: a part of the damage leaves as a true-damage combat of its own. */
  method PenetrateDamage(current: uint32, m: ModifierSum) returns (pierce: Combat, remaining: uint32)
    ensures remaining + pierce.damage == current && pierce.damage == Min(LeechAmount(current, m), current)
    ensures Fits(current, m.percent) && Percent(current, m.percent) + m.flat < TWO32 ==> pierce.damage == Share(current, m)
    ensures pierce == Combat(UNDEFINED, pierce.damage, Piercing, true, true, false, false, false, NoStat)
  {
    PercentFacts(current, m.percent);
    hide Percent;
    hide PercentOf;
    hide Fits;
    var penetration: uint32 := 0;
    if m.percent > 0 {
      penetration := Add(penetration, PercentOf(current, m.percent));
    }
    if m.flat > 0 {
      penetration := Add(penetration, m.flat);
    }
    if penetration > current {
      penetration := current;
    }
    pierce := Combat(UNDEFINED, penetration, Piercing, true, true, false, false, false, NoStat);
    remaining := current - penetration;
  }

  /** The damage with a critical hit on top, in 32-bit arithmetic. */
  function Critted(current: uint32, m: ModifierSum): uint32 {
    Add(Add(current, PercentOf(current, m.percent)), m.flat)
  }

  /** `applyCrit`. */
  method ApplyCrit(current: uint32, m: ModifierSum) returns (r: uint32)
    ensures r == Critted(current, m)
    ensures Fits(current, m.percent) && current + Percent(current, m.percent) + m.flat < TWO32
            ==> r == current + Percent(current, m.percent) + m.flat
  {
    PercentFacts(current, m.percent);
    hide Percent;
    hide PercentOf;
    hide Fits;
    r := current;
    if m.percent > 0 {
      r := Add(r, PercentOf(r, m.percent));
    }
    if m.flat > 0 {
      r := Add(r, m.flat);
    }
  }

  /** The damage of a weak victim: the percentage saturates at the largest number, the flat part wraps around. */
  function Weakened(current: uint32, m: ModifierSum): uint32 {
    Add(Min(current + Percent(current, m.percent), TWO32 - 1), m.flat)
  }

  /** The weakness part of `defense_augment`: the percentage saturates, the flat part wraps. */
  method Weaken(current: uint32, m: ModifierSum) returns (r: uint32)
    ensures r == Weakened(current, m)
    ensures current + Percent(current, m.percent) + m.flat < TWO32
            ==> r == current + Percent(current, m.percent) + m.flat
  {
    PercentFacts(current, m.percent);
    hide Percent;
    hide PercentOf;
    r := current;
    if m.percent > 0 {
      r := Min(r + Percent(r, m.percent), TWO32 - 1);
    }
    if m.flat > 0 {
      r := Add(r, m.flat);
    }
  }

  /** What is left of the damage: the flat part is taken off what the percentage left. */
  function Resisted(current: uint32, m: ModifierSum): uint32 {
    var kept := current - Min(Percent(current, m.percent), current);
    kept - Min(m.flat, kept)
  }

  /** Its resistance part. */
  method Resist(current: uint32, m: ModifierSum) returns (r: uint32)
    ensures r == Resisted(current, m) && r <= current
  {
    PercentFacts(current, m.percent);
    hide Percent;
    hide PercentOf;
    r := current;
    if m.percent > 0 {
      r := r - Min(Percent(r, m.percent), r);
    }
    if m.flat > 0 {
      r := if m.flat >= r then 0 else r - m.flat;
    }
  }

  // ---------------------------------------------------------------- the amounts in plain arithmetic

  /** What a percentage with a flat part takes of an amount, in whole numbers: at most all of it. */
  lemma ShareIs(current: uint32, m: ModifierSum)
    ensures var asked := current * m.percent / 100 + m.flat;
            && Share(current, m) == (if asked < current then asked else current)
            && Kept(current, m) == (if asked < current then current - asked else 0)
    ensures 100 * Percent(current, m.percent) <= current * m.percent < 100 * Percent(current, m.percent) + 100
  {
  }

  lemma WrapIs(n: nat)
    ensures Wrap(n) == n % 0x1_0000_0000 && (n < 0x1_0000_0000 ==> Wrap(n) == n)
  {
  }

  lemma LeechAmountIs(total: uint32, m: ModifierSum)
    ensures LeechAmount(total, m) == (total * m.percent % 0x1_0000_0000 / 100 + m.flat) % 0x1_0000_0000
    ensures total * m.percent < 0x1_0000_0000 && total * m.percent / 100 + m.flat < 0x1_0000_0000 ==>
              LeechAmount(total, m) == total * m.percent / 100 + m.flat
  {
    hide Wrap;
    WrapIs(total * m.percent);
    WrapIs(PercentOf(total, m.percent) + m.flat);
  }

  /** A critical hit, weakness and resistance. */
  lemma CrittedIs(current: uint32, m: ModifierSum)
    ensures current * m.percent < 0x1_0000_0000 && current + current * m.percent / 100 + m.flat < 0x1_0000_0000 ==>
              Critted(current, m) == current + current * m.percent / 100 + m.flat
  {
    hide Wrap;
    WrapIs(current * m.percent);
    WrapIs(current + PercentOf(current, m.percent));
    WrapIs(Add(current, PercentOf(current, m.percent)) + m.flat);
  }

  lemma WeakenedIs(current: uint32, m: ModifierSum)
    ensures current + current * m.percent / 100 + m.flat < 0x1_0000_0000 ==>
              Weakened(current, m) == current + current * m.percent / 100 + m.flat
    ensures current + current * m.percent / 100 >= 0xFFFF_FFFF ==>
              Weakened(current, m) == if m.flat == 0 then 0xFFFF_FFFF else m.flat - 1
  {
    hide Percent;
    assert Percent(current, m.percent) == current * m.percent / 100 by { PercentIs(current, m.percent); }
    Saturates(current + Percent(current, m.percent), m.flat);
  }

  lemma PercentIs(amount: nat, percent: nat)
    ensures Percent(amount, percent) == amount * percent / 100
  {
  }

  lemma Saturates(n: nat, flat: uint32)
    ensures n + flat < 0x1_0000_0000 ==> Add(Min(n, TWO32 - 1), flat) == n + flat
    ensures n >= 0xFFFF_FFFF ==> Add(Min(n, TWO32 - 1), flat) == if flat == 0 then 0xFFFF_FFFF else flat - 1
  {
  }

  lemma ResistedIs(current: uint32, m: ModifierSum)
    ensures Resisted(current, m) ==
            if current * m.percent / 100 + m.flat < current then current - current * m.percent / 100 - m.flat else 0
  {
    hide Percent;
    PercentIs(current, m.percent);
  }

  /** An entry with nothing in it hands out nothing; every other defensive entry one combat. */
  lemma DefenseEntryIs(current: uint32, m: ModifierSum, damageType: nat, origin: Origin, stat: Stat, victim: nat, target: Target)
    ensures var asked := current * m.percent / 100 + m.flat;
            var amount := if asked < current then asked else current;
            && HealRoot(current, m, origin, stat, victim) ==
               (if m.percent == 0 && m.flat == 0 then []
                else [Root(Combat(128, amount, origin, true, false, true, false, false, stat), amount, victim, On(victim))])
            && (origin != Deflect ==>
                  BounceRoot(current, m, damageType, origin, victim, target) ==
                  if m.percent == 0 && m.flat == 0 then []
                  else [Root(Combat(damageType, amount, origin, true, true, true, true, false, NoStat), amount, victim, target)])
  {
    ShareIs(current, m);
  }

  /** A deflected amount is meant for one creature below 25, two below 75, and so on up to six from 225 on, and each of
      them gets an equal part, to the nearest whole number. */
  lemma TargetsAre(amount: uint32)
    ensures Targets(amount) == if amount < 25 then 1 else if amount < 75 then 2 else if amount < 125 then 3
                               else if amount < 175 then 4 else if amount < 225 then 5 else 6
  {
  }

  lemma EqualParts(amount: uint32)
    ensures 2 * amount - Targets(amount) <= 2 * (EachTarget(amount) * Targets(amount)) <= 2 * amount + Targets(amount)
  {
    hide Targets;
    hide Wrap;
    hide RoundedQuotient;
    RoundsToNearest(amount, Targets(amount));
    WrapIs(RoundedQuotient(amount, Targets(amount)));
  }

  lemma RoundsToNearest(a: nat, b: nat)
    requires b > 0
    ensures 2 * a - b <= 2 * (RoundedQuotient(a, b) * b) <= 2 * a + b
    ensures RoundedQuotient(a, b) <= a
  {
    var q := (2 * a + b) / (2 * b);
    assert q * (2 * b) == 2 * (q * b);
    assert (2 * a + b) % (2 * b) == 2 * a + b - 2 * (q * b);
    TimesAtLeast(a, b);
    QuotientAtMost(2 * a + b, 2 * b, a);
  }

  lemma TimesAtLeast(a: nat, b: nat)
    requires b > 0
    ensures 2 * a + b < 2 * b * (a + 1)
  {
    assert 2 * b * (a + 1) == 2 * (a * b) + 2 * b;
    assert a * b >= a by { assert a * b - a == a * (b - 1); }
  }

  lemma QuotientAtMost(n: nat, d: nat, a: nat)
    requires d > 0 && n < d * (a + 1)
    ensures n / d <= a
  {
    var q := n / d;
    assert d * q <= n;
    assert d * q < d * (a + 1);
    LessByFactor(d, q, a + 1);
  }

  lemma LessByFactor(d: nat, q: nat, r: nat)
    requires d * q < d * r
    ensures q < r
  {
    assert d * (r - q) == d * r - d * q;
  }

  /** Steals and leeches ask for a share of the whole hit; a steal takes it off the damage while there is some, in
      damage of its own kind that does not leech; a leech heals the caster on top. */
  lemma LeechEntryIs(current: uint32, total: uint32, m: ModifierSum, damageType: nat, origin: Origin, stat: Stat,
                     attacker: nat, victim: nat)
    ensures var asked := LeechAmount(total, m);
            var stolen := if asked < current then asked else current;
            && StealRoot(current, total, m, damageType, origin, attacker, victim) ==
               (if (m.percent == 0 && m.flat == 0) || asked == 0 then []
                else [Root(Combat(damageType, stolen, origin, true, true, false, false, true, NoStat), stolen, attacker, On(victim))])
            && Unstolen(current, total, m) == (if m.percent == 0 && m.flat == 0 then current else current - stolen)
            && LeechRoot(total, m, origin, stat, attacker) ==
               (if (m.percent == 0 && m.flat == 0) || asked == 0 then []
                else [Root(Combat(128, asked, origin, true, false, false, false, true, stat), asked, attacker, On(attacker))])
  {
    hide LeechAmount;
  }

  // ---------------------------------------------------------------- what applying damage does

  /** How much goes against mana, and then how much against health. */
  function Drained(t: Creature, damageType: nat, current: uint32): nat {
    if t.isPlayer && (damageType == MANA_DRAIN || t.manaShield) then Min(current, t.mana) else 0
  }

  function Hit(t: Creature, damageType: nat, current: uint32): nat {
    if damageType == MANA_DRAIN then 0 else Min(current - Drained(t, damageType, current), t.health)
  }

  /** The scripts of a victim are asked only where the hit would kill it. A dead player is asked as well. */
  predicate Spared(t: Creature, damageType: nat, current: uint32, veto: bool) {
    && veto && damageType != MANA_DRAIN && Hit(t, damageType, current) == t.health
    && (if t.isPlayer then current > Drained(t, damageType, current) else Hit(t, damageType, current) != 0)
  }

  /** Mana and health fit the 32 bits they are added up in. */
  predicate InRange(t: Creature) {
    t.health < 0x8000_0000 && (t.isPlayer ==> t.mana + t.health < TWO32)
  }

  /** `after` is `before` with the damage taken: mana first, where it counts, and then health; of a hit
      that is vetoed only the mana part is real, and nothing is reported as dealt. */
  predicate TakesDamage(before: Creature, after: Creature, damageType: nat, current: uint32, veto: bool, dealt: nat) {
    && after == before.(mana := after.mana, health := after.health)
    && (InRange(before) ==>
          && after.mana == before.mana - Drained(before, damageType, current)
          && (if Spared(before, damageType, current, veto) then after.health == before.health && dealt == 0
              else after.health == before.health - Hit(before, damageType, current)
                   && dealt == Drained(before, damageType, current) + Hit(before, damageType, current)))
  }

  /** The victim has taken the damage, and everybody else is as before. */
  ghost predicate Struck(before: World, after: World, victim: nat, damageType: nat,
                         current: uint32, veto: bool, dealt: nat)
  {
    && victim in before && after.Keys == before.Keys
    && TakesDamage(before[victim], after[victim], damageType, current, veto, dealt)
    && forall id :: id in before && id != victim ==> after[id] == before[id]
  }

  /** Under a mana shield exactly the smaller of the damage and mana plus health is gone, mana first. */
  lemma ShieldTakesManaFirst(before: Creature, after: Creature, damageType: nat, current: uint32, veto: bool, dealt: nat)
    requires TakesDamage(before, after, damageType, current, veto, dealt) && InRange(before)
    requires before.isPlayer && before.manaShield && damageType != MANA_DRAIN
    requires !veto || current < before.mana + before.health
    ensures dealt == Min(current, before.mana + before.health)
    ensures before.mana + before.health == after.mana + after.health + dealt
    ensures after.health < before.health ==> after.mana == 0
  {
  }

  /** What a creature in range loses, case by case. Only a player has mana to lose; a monster, and a player without mana
      shield, lose health alone. */
  lemma DamageTaken(before: Creature, after: Creature, damageType: nat, current: uint32, veto: bool, dealt: nat)
    requires TakesDamage(before, after, damageType, current, veto, dealt) && InRange(before)
    ensures damageType == MANA_DRAIN && before.isPlayer ==>
              dealt == Min(current, before.mana) && after == before.(mana := before.mana - dealt)
    ensures damageType == MANA_DRAIN && !before.isPlayer ==> dealt == 0 && after == before
    ensures damageType != MANA_DRAIN && !(before.isPlayer && before.manaShield) ==>
              if veto && before.health <= current then dealt == 0 && after == before
              else dealt == Min(current, before.health) && after == before.(health := before.health - dealt)
    ensures damageType != MANA_DRAIN && before.isPlayer && before.manaShield ==>
              && after.mana == before.mana - Min(current, before.mana)
              && (before.mana < current ==>
                    if veto && before.health <= current - before.mana then dealt == 0 && after.health == before.health
                    else after.health == before.health - Min(current - before.mana, before.health)
                         && dealt == before.mana + Min(current - before.mana, before.health))
              && (current <= before.mana ==> dealt == current && after.health == before.health)
  {
  }

  lemma Fits32(n: nat)
    ensures n < TWO32 ==> Wrap(n) == n && forall a: nat, b: nat :: a + b == n ==> Add(a, b) == n
  {
  }

  lemma Fitting(t: Creature)
    requires t.isPlayer
    ensures InRange(t) ==> Wrap(t.health) == t.health && Add(t.mana, t.health) == t.mana + t.health
  {
  }

  lemma Lowered(limit: uint32, dealt: uint32)
    ensures dealt <= limit ==> Wrap(limit + TWO32 - dealt) == limit - dealt
  {
  }

  lemma StruckIsWorn(before: World, after: World, victim: nat, damageType: nat, current: uint32, veto: bool, dealt: nat)
    requires Struck(before, after, victim, damageType, current, veto, dealt)
    ensures Worn(before, after)
  {
  }

  lemma OneChanged(before: World, after: World, victim: nat, damageType: nat, current: uint32, veto: bool, dealt: nat)
    requires Struck(before, after, victim, damageType, current, veto, dealt)
    ensures after == before[victim := after[victim]]
  {
  }

  lemma WornOn(a: World, b: World, c: World)
    requires Worn(a, b) && Worn(b, c)
    ensures Worn(a, c)
  {
  }

  // ---------------------------------------------------------------- what healing does

  /** `heal_target`: at most up to the limit, and nothing at all from the limit on. Only players have the
      last three. */
  function Healed(t: Creature, stat: Stat, amount: nat): Creature {
    match stat
    case NoStat => t
    case Health => if t.health < t.maxHealth then t.(health := t.health + Min(amount, t.maxHealth - t.health)) else t
    case Mana => if t.isPlayer && t.mana < t.maxMana then t.(mana := t.mana + Min(amount, t.maxMana - t.mana)) else t
    case Stamina =>
      if t.isPlayer && t.stamina < MAX_STAMINA then t.(stamina := t.stamina + Min(amount, MAX_STAMINA - t.stamina)) else t
    case Soul => if t.isPlayer && t.soul < t.maxSoul then t.(soul := t.soul + Min(amount, t.maxSoul - t.soul)) else t
  }

  /** After several heals, in order. */
  function HealedBy(t: Creature, roots: seq<Root>): Creature {
    if roots == [] then t
    else
      var last := roots[|roots| - 1].combat;
      Healed(HealedBy(t, roots[..|roots| - 1]), last.heals, last.damage)
  }

  lemma {:induction false} HealedByConcat(t: Creature, a: seq<Root>, b: seq<Root>)
    ensures HealedBy(t, a + b) == HealedBy(HealedBy(t, a), b)
  {
    if b == [] {
      assert a + b == a;
    } else {
      HealedByConcat(t, a, b[..|b| - 1]);
      assert (a + b)[..|a + b| - 1] == a + b[..|b| - 1];
    }
  }

  lemma HealedByOne(t: Creature, r: Root)
    ensures HealedBy(t, [r]) == Healed(t, r.combat.heals, r.combat.damage) && HealedBy(t, []) == t
  {
    assert [r][..0] == [];
  }

  /** A heal raises its own stat by the amount, as far as the maximum, and nothing else; what is at or above its maximum
      stays. Only players have mana, stamina and soul. */
  lemma HealingIsBounded(t: Creature, stat: Stat, amount: nat)
    ensures var h := Healed(t, stat, amount);
            && (stat == Health ==> h == t.(health := Raised(t.health, amount, t.maxHealth)))
            && (stat == Mana ==> h == if t.isPlayer then t.(mana := Raised(t.mana, amount, t.maxMana)) else t)
            && (stat == Stamina ==> h == if t.isPlayer then t.(stamina := Raised(t.stamina, amount, MAX_STAMINA)) else t)
            && (stat == Soul ==> h == if t.isPlayer then t.(soul := Raised(t.soul, amount, t.maxSoul)) else t)
            && (stat == NoStat ==> h == t)
  {
  }

  /** `n` and `amount` more, but not above `max`; never less than `n`. */
  function Raised(n: nat, amount: nat, max: nat): (r: nat)
    ensures n <= r && r <= n + amount && (n <= max ==> r <= max)
    ensures r == n + amount || (r == max && max <= n + amount) || (r == n && max <= n)
  {
    if n + amount <= max then n + amount else if n < max then max else n
  }

  lemma {:induction false} HealedIsKin(t: Creature, roots: seq<Root>)
    ensures Kin(t, HealedBy(t, roots))
  {
    if roots == [] {
    } else {
      HealedIsKin(t, roots[..|roots| - 1]);
    }
  }

  // ---------------------------------------------------------------- the plan of a strike

  /** What the caster's modifiers that apply come to, and the charges they cost. */
  datatype AttackPlan = AttackPlan(
    hasModifiers: bool, cost: uint32, conversions: seq<Modifier>, otherModifiers: bool,
    critical: ModifierSum, piercing: ModifierSum, leech: LeechData, steal: LeechData)

  /** Somebody who stands in an area, and whether the scripts spare them. */
  datatype Bystander = Bystander(id: nat, veto: bool)

  /** What the victim's modifiers that apply come to; `open` says whether there is somewhere to ricochet to, and
      the last two who stands where deflect and ricochet go. */
  datatype DefensePlan = DefensePlan(
    hasModifiers: bool, cost: uint32, reforms: seq<Modifier>, otherModifiers: bool, sums: DefenseSums,
    open: bool, reflectVeto: bool, deflectedOn: seq<Bystander>, ricochetOn: seq<Bystander>)

  /** Everything a strike asks of the world around it: target validation, `block`, modifiers and scripts. */
  datatype Plan = Plan(valid: bool, blocked: bool, unblocked: uint32, attack: AttackPlan, defense: DefensePlan, veto: bool)

  /** What a strike finds out on its way: who strikes, whether the two sides can pay for their modifiers,
      and how much damage was reported as dealt. */
  datatype Facts = Facts(byPlayer: bool, attacks: bool, defends: bool, dealt: nat)

  /** Does the combat get as far as dealing damage? */
  predicate Enters(c: Combat, plan: Plan, skipValidation: bool) {
    && c.damageType != UNKNOWN && c.damageType != HEALING
    && (skipValidation || plan.valid) && (c.trueDamage || !plan.blocked)
  }

  function Entering(c: Combat, plan: Plan): uint32 {
    if c.trueDamage then c.damage else plan.unblocked
  }

  /** Do the caster's modifiers apply at all? */
  predicate Attacks(c: Combat, me: Creature, p: AttackPlan) {
    me.isPlayer && p.hasModifiers && !c.attackModified && (p.cost == 0 || me.attackCharges >= p.cost)
  }

  predicate Defends(c: Combat, it: Creature, p: DefensePlan) {
    it.isPlayer && p.hasModifiers && !c.defenseModified && (p.cost == 0 || it.defenseCharges >= p.cost)
  }

  // The attack: conversion, piercing and critical.

  function Converted(p: AttackPlan, entered: uint32): (r: uint32)
    ensures r <= entered
  {
    Min(Wrap(SumAll(p.conversions, entered)), entered)
  }

  /** Conversion leaves something, and there is more to do. */
  predicate GoesOn(c: Combat, p: AttackPlan, entered: uint32) {
    && !(Wrap(SumAll(p.conversions, entered)) != 0 && Converted(p, entered) == entered)
    && c.damageType != MANA_DRAIN && p.otherModifiers
  }

  predicate Pierces(c: Combat, p: AttackPlan, entered: uint32) {
    GoesOn(c, p, entered) && !c.trueDamage && Active(p.piercing)
  }

  function AfterPiercing(c: Combat, p: AttackPlan, entered: uint32): uint32 {
    var left := entered - Converted(p, entered);
    if Pierces(c, p, entered) then Unstolen(left, left, p.piercing) else left
  }

  function AfterAttack(c: Combat, p: AttackPlan, entered: uint32): uint32 {
    if GoesOn(c, p, entered) && Active(p.critical) then Critted(AfterPiercing(c, p, entered), p.critical)
    else AfterPiercing(c, p, entered)
  }

  function AttackRoots(c: Combat, p: AttackPlan, entered: uint32, attacker: nat, victim: nat): seq<Root> {
    BucketRoots(Buckets(p.conversions, entered), DAMAGE_TYPES, false, attacker, victim)
    + if Pierces(c, p, entered) then [PierceRoot(entered - Converted(p, entered), p.piercing, attacker, victim)] else []
  }

  // The defense: reform, weakness, resistance, heals and bounces.

  function Reformed(p: DefensePlan, current: uint32): (r: uint32)
    ensures r <= current
  {
    Min(Wrap(SumValid(p.reforms, current)), current)
  }

  function ReformRoots(p: DefensePlan, current: uint32, attacker: nat, victim: nat): seq<Root> {
    if Wrap(SumValid(p.reforms, current)) == 0 then []
    else BucketRoots(Buckets(p.reforms, current), DAMAGE_TYPES, true, attacker, victim)
  }

  /** What resistance leaves of the weakened damage. */
  function Withstood(d: DefenseSums, current: uint32): uint32 {
    Resisted(Weakened(current, d.weakness), d.resist)
  }

  function AfterSums(c: Combat, d: DefenseSums, open: bool, current: uint32): uint32 {
    var healed := AfterHeals(Withstood(d, current), d);
    if c.bounce then healed else Bounced(healed, d, open)
  }

  function AfterDefense(c: Combat, p: DefensePlan, current: uint32): uint32 {
    var left := current - Reformed(p, current);
    if p.otherModifiers then AfterSums(c, p.sums, p.open, left) else left
  }

  function SumsRoots(c: Combat, d: DefenseSums, open: bool, current: uint32, attacker: nat, victim: nat): seq<Root> {
    var kept := Withstood(d, current);
    HealRoots(kept, d, victim)
    + if c.bounce then [] else BounceRoots(AfterHeals(kept, d), d, c.damageType, open, attacker, victim)
  }

  function DefenseRoots(c: Combat, p: DefensePlan, current: uint32, attacker: nat, victim: nat): seq<Root> {
    ReformRoots(p, current, attacker, victim)
    + if p.otherModifiers then SumsRoots(c, p.sums, p.open, current - Reformed(p, current), attacker, victim) else []
  }

  // The end: stealing, applying and leeching.

  function FinishRoots(c: Combat, steal: LeechData, leech: LeechData, f: Facts, current: uint32,
                       attacker: nat, victim: nat): seq<Root>
  {
    var applied := AfterSteal(current, steal);
    StealRoots(current, steal, attacker, victim)
    + if f.dealt != 0 && Leeches(c, f.byPlayer, applied) then LeechRoots(applied, leech, attacker) else []
  }

  // The whole strike.

  /** The damage behind the attack. */
  function Pressed(c: Combat, plan: Plan, f: Facts, entered: uint32): uint32 {
    if f.attacks then AfterAttack(c, plan.attack, entered) else entered
  }

  /** Nothing is left, and a player's strike ends here. */
  predicate Stops(c: Combat, plan: Plan, f: Facts, entered: uint32) {
    f.byPlayer && Pressed(c, plan, f, entered) == 0
  }

  /** The damage behind the defense. */
  function Parried(c: Combat, plan: Plan, f: Facts, entered: uint32): uint32 {
    var pressed := Pressed(c, plan, f, entered);
    if f.defends then AfterDefense(c, plan.defense, pressed) else pressed
  }

  function Stealing(c: Combat, plan: Plan, f: Facts, entered: uint32): LeechData {
    if f.attacks && GoesOn(c, plan.attack, entered) then plan.attack.steal else NO_LEECH
  }

  function Leeching(c: Combat, plan: Plan, f: Facts, entered: uint32): LeechData {
    if f.attacks && GoesOn(c, plan.attack, entered) then plan.attack.leech else NO_LEECH
  }

  /** The damage that is applied to the victim. */
  function Applied(c: Combat, plan: Plan, f: Facts, entered: uint32): uint32 {
    if Stops(c, plan, f, entered) then 0 else AfterSteal(Parried(c, plan, f, entered), Stealing(c, plan, f, entered))
  }

  function PressRoots(c: Combat, plan: Plan, f: Facts, entered: uint32, attacker: nat, victim: nat): seq<Root> {
    if f.attacks then AttackRoots(c, plan.attack, entered, attacker, victim) else []
  }

  function ParryRoots(c: Combat, plan: Plan, f: Facts, entered: uint32, attacker: nat, victim: nat): seq<Root> {
    if f.defends then DefenseRoots(c, plan.defense, Pressed(c, plan, f, entered), attacker, victim) else []
  }

  function EndRoots(c: Combat, plan: Plan, f: Facts, entered: uint32, attacker: nat, victim: nat): seq<Root> {
    FinishRoots(c, Stealing(c, plan, f, entered), Leeching(c, plan, f, entered), f, Parried(c, plan, f, entered), attacker, victim)
  }

  /** All that a strike spawns, in order, each stage working on what the one before it left. */
  function StrikeRoots(c: Combat, plan: Plan, f: Facts, entered: uint32, attacker: nat, victim: nat): seq<Root> {
    PressRoots(c, plan, f, entered, attacker, victim)
    + if Stops(c, plan, f, entered) then []
      else ParryRoots(c, plan, f, entered, attacker, victim) + EndRoots(c, plan, f, entered, attacker, victim)
  }

  /** What a combat spawns, whether or not it comes to dealing damage. */
  function AllRoots(c: Combat, plan: Plan, f: Facts, skipValidation: bool, attacker: nat, victim: nat): seq<Root> {
    if Enters(c, plan, skipValidation) then StrikeRoots(c, plan, f, Entering(c, plan), attacker, victim) else []
  }

  // ---------------------------------------------------------------- the bill of a strike

  /** Where the damage of a strike went. `converted` and `reformed` are what the two stages took off the damage,
      and `conversionsHand` and `reformsHand` what they handed on. */
  datatype Bill = Bill(
    converted: nat, conversionsHand: nat, pierced: nat, critAdded: int,
    reformed: nat, reformsHand: nat, weaknessAdded: int, resisted: nat, healed: nat, bounced: nat,
    stolen: nat, applied: nat, leeched: nat)

  function LeechTotal(total: uint32, l: LeechData): nat {
    LeechOf(total, l.health) + LeechOf(total, l.mana) + LeechOf(total, l.stamina) + LeechOf(total, l.soul)
  }

  function LeechOf(total: uint32, m: ModifierSum): nat {
    if Active(m) then LeechAmount(total, m) else 0
  }

  /** Does the defense, or its part behind reform, have any say? */
  predicate Reaches(c: Combat, plan: Plan, f: Facts, entered: uint32) {
    f.defends && !Stops(c, plan, f, entered)
  }

  function BillOf(c: Combat, plan: Plan, f: Facts, entered: uint32): Bill {
    var p, d := plan.attack, plan.defense;
    var pressed := Pressed(c, plan, f, entered);
    var sums := Reaches(c, plan, f, entered) && d.otherModifiers;
    var left := if sums then pressed - Reformed(d, pressed) else 0;
    var kept := if sums then Withstood(d.sums, left) else 0;
    var applied := Applied(c, plan, f, entered);
    Bill(
      converted := if f.attacks then Converted(p, entered) else 0,
      conversionsHand := if f.attacks then SumUpTo(Buckets(p.conversions, entered), DAMAGE_TYPES) else 0,
      pierced := if f.attacks then entered - Converted(p, entered) - AfterPiercing(c, p, entered) else 0,
      critAdded := if f.attacks then AfterAttack(c, p, entered) as int - AfterPiercing(c, p, entered) else 0,
      reformed := if Reaches(c, plan, f, entered) then Reformed(d, pressed) else 0,
      reformsHand := if Reaches(c, plan, f, entered) then ReformsHand(d, pressed) else 0,
      weaknessAdded := if sums then Weakened(left, d.sums.weakness) as int - left else 0,
      resisted := if sums then Weakened(left, d.sums.weakness) - kept else 0,
      healed := if sums then kept - AfterHeals(kept, d.sums) else 0,
      bounced := if sums then AfterHeals(kept, d.sums) - AfterSums(c, d.sums, d.open, left) else 0,
      stolen := if Stops(c, plan, f, entered) then 0 else Parried(c, plan, f, entered) - applied,
      applied := applied,
      leeched := if !Stops(c, plan, f, entered) && f.dealt != 0 && Leeches(c, f.byPlayer, applied)
                 then LeechTotal(applied, Leeching(c, plan, f, entered)) else 0)
  }

  /** What the stages take telescopes; a helper of `ConservedIff`. */
  lemma BillBalances(c: Combat, plan: Plan, f: Facts, entered: uint32)
    ensures var b := BillOf(c, plan, f, entered);
            entered + b.critAdded + b.weaknessAdded
            == b.converted + b.pierced + b.reformed + b.resisted + b.healed + b.bounced + b.stolen + b.applied
  {
    hide Converted;
    hide Reformed;
    hide Kept;
    hide Unstolen;
    hide Weakened;
    hide Resisted;
    hide Critted;
    hide Wrap;
    hide SumValid;
    hide SumAll;
    hide SumUpTo;
    hide LeechTotal;
  }

  /** What the spawned combats were handed is what the bill says. */
  lemma BillIsHandedOut(c: Combat, plan: Plan, f: Facts, entered: uint32, attacker: nat, victim: nat)
    ensures var b := BillOf(c, plan, f, entered);
            Hand(StrikeRoots(c, plan, f, entered, attacker, victim))
            == b.conversionsHand + b.pierced + b.reformsHand + b.healed + b.bounced + b.stolen + b.leeched
  {
    var pressed, parried := Pressed(c, plan, f, entered), Parried(c, plan, f, entered);
    PressHands(c, plan, f, entered, attacker, victim);
    if Stops(c, plan, f, entered) {
      assert StrikeRoots(c, plan, f, entered, attacker, victim) == PressRoots(c, plan, f, entered, attacker, victim);
    } else {
      ParryHands(c, plan, f, entered, attacker, victim);
      EndHands(c, plan, f, entered, attacker, victim);
      hide PressRoots;
      hide ParryRoots;
      hide EndRoots;
      var first, second, third := PressRoots(c, plan, f, entered, attacker, victim),
                                  ParryRoots(c, plan, f, entered, attacker, victim),
                                  EndRoots(c, plan, f, entered, attacker, victim);
      HandConcat(second, third);
      HandConcat(first, second + third);
    }
  }

  lemma PressHands(c: Combat, plan: Plan, f: Facts, entered: uint32, attacker: nat, victim: nat)
    ensures var b := BillOf(c, plan, f, entered);
            Hand(PressRoots(c, plan, f, entered, attacker, victim)) == b.conversionsHand + b.pierced
  {
    hide LeechAmount;
    var p := plan.attack;
    var left := entered - Converted(p, entered);
    var buckets := BucketRoots(Buckets(p.conversions, entered), DAMAGE_TYPES, false, attacker, victim);
    BucketsHandOn(Buckets(p.conversions, entered), DAMAGE_TYPES, false, attacker, victim);
    HandConcat(buckets, if Pierces(c, p, entered) then [PierceRoot(left, p.piercing, attacker, victim)] else []);
    HandOne(PierceRoot(left, p.piercing, attacker, victim));
  }

  /** What the reforms hand on. */
  function ReformsHand(d: DefensePlan, current: uint32): nat {
    if Wrap(SumValid(d.reforms, current)) == 0 then 0 else SumUpTo(Buckets(d.reforms, current), DAMAGE_TYPES)
  }

  lemma DefenseHands(c: Combat, d: DefensePlan, current: uint32, attacker: nat, victim: nat)
    ensures var left := current - Reformed(d, current);
            Hand(DefenseRoots(c, d, current, attacker, victim)) ==
            ReformsHand(d, current)
            + if d.otherModifiers then Withstood(d.sums, left) - AfterSums(c, d.sums, d.open, left) else 0
  {
    hide SumsRoots;
    hide AfterSums;
    hide Withstood;
    hide Buckets;
    hide SumUpTo;
    hide Wrap;
    hide SumValid;
    var left := current - Reformed(d, current);
    hide Reformed;
    BucketsHandOn(Buckets(d.reforms, current), DAMAGE_TYPES, true, attacker, victim);
    HandOne(BucketRoot(0, 0, true, attacker, victim));
    SumsHand(c, d.sums, d.open, left, attacker, victim);
    HandConcat(ReformRoots(d, current, attacker, victim),
               if d.otherModifiers then SumsRoots(c, d.sums, d.open, left, attacker, victim) else []);
  }

  lemma ParryHands(c: Combat, plan: Plan, f: Facts, entered: uint32, attacker: nat, victim: nat)
    requires !Stops(c, plan, f, entered)
    ensures var b := BillOf(c, plan, f, entered);
            Hand(ParryRoots(c, plan, f, entered, attacker, victim)) == b.reformsHand + b.healed + b.bounced
  {
    hide Pressed;
    hide DefenseRoots;
    hide Withstood;
    hide AfterSums;
    hide AfterHeals;
    hide Reformed;
    hide Applied;
    hide LeechTotal;
    hide AfterAttack;
    hide AfterPiercing;
    hide Converted;
    var d, pressed := plan.defense, Pressed(c, plan, f, entered);
    DefenseHands(c, d, pressed, attacker, victim);
    SumsOrder(c, d.sums, d.open, pressed - Reformed(d, pressed));
    HandOne(BucketRoot(0, 0, true, attacker, victim));
  }

  lemma SumsOrder(c: Combat, d: DefenseSums, open: bool, current: uint32)
    ensures AfterSums(c, d, open, current) <= AfterHeals(Withstood(d, current), d) <= Withstood(d, current)
  {
    hide Share;
  }

  lemma SumsHand(c: Combat, d: DefenseSums, open: bool, current: uint32, attacker: nat, victim: nat)
    ensures Hand(SumsRoots(c, d, open, current, attacker, victim)) == Withstood(d, current) - AfterSums(c, d, open, current)
  {
    var kept := Withstood(d, current);
    var healed := AfterHeals(kept, d);
    HealsHand(kept, d, victim);
    BouncesHand(healed, d, c.damageType, open, attacker, victim);
    HandOne(BucketRoot(0, 0, true, attacker, victim));
    hide HealRoots;
    hide BounceRoots;
    HandConcat(HealRoots(kept, d, victim), if c.bounce then [] else BounceRoots(healed, d, c.damageType, open, attacker, victim));
  }

  lemma HealHands(current: uint32, m: ModifierSum, origin: Origin, stat: Stat, victim: nat)
    ensures Hand(HealRoot(current, m, origin, stat, victim)) == current - Kept(current, m)
  {
    PercentFacts(current, m.percent);
    hide Percent;
    if Active(m) { HandOne(HealRoot(current, m, origin, stat, victim)[0]); }
  }

  lemma HealsHand(current: uint32, d: DefenseSums, victim: nat)
    ensures Hand(HealRoots(current, d, victim)) == current - AfterHeals(current, d)
  {
    hide HealRoot;
    hide Kept;
    hide Hand;
    var a := Kept(current, d.absorb);
    var b := Kept(a, d.restore);
    var e := Kept(b, d.replenish);
    HealHands(current, d.absorb, Absorb, Health, victim);
    HealHands(a, d.restore, Restore, Mana, victim);
    HealHands(b, d.replenish, Replenish, Stamina, victim);
    HealHands(e, d.revive, Revive, Soul, victim);
    FourConcat(HealRoot(current, d.absorb, Absorb, Health, victim), HealRoot(a, d.restore, Restore, Mana, victim),
               HealRoot(b, d.replenish, Replenish, Stamina, victim), HealRoot(e, d.revive, Revive, Soul, victim));
  }

  lemma FourConcat(a: seq<Root>, b: seq<Root>, c: seq<Root>, d: seq<Root>)
    ensures Hand(a + b + c + d) == Hand(a) + Hand(b) + Hand(c) + Hand(d)
  {
    hide Hand;
    HandConcat(a, b);
    HandConcat(a + b, c);
    HandConcat(a + b + c, d);
  }

  lemma BounceHands(current: uint32, m: ModifierSum, damageType: nat, origin: Origin, victim: nat, target: Target)
    ensures Hand(BounceRoot(current, m, damageType, origin, victim, target)) == current - Kept(current, m)
  {
    PercentFacts(current, m.percent);
    hide Percent;
    hide EachTarget;
    if Active(m) { HandOne(BounceRoot(current, m, damageType, origin, victim, target)[0]); }
  }

  lemma BouncesHand(current: uint32, d: DefenseSums, damageType: nat, open: bool, attacker: nat, victim: nat)
    ensures Hand(BounceRoots(current, d, damageType, open, attacker, victim)) == current - Bounced(current, d, open)
  {
    hide BounceRoot;
    hide Kept;
    hide Hand;
    var a := Kept(current, d.reflect);
    var b := Kept(a, d.deflect);
    BounceHands(current, d.reflect, damageType, Reflect, victim, On(attacker));
    BounceHands(a, d.deflect, damageType, Deflect, victim, Area);
    BounceHands(b, d.ricochet, damageType, Ricochet, victim, Area);
    var last := if open then BounceRoot(b, d.ricochet, damageType, Ricochet, victim, Area) else [];
    HandOne(BucketRoot(0, 0, true, attacker, victim));
    FourConcat(BounceRoot(current, d.reflect, damageType, Reflect, victim, On(attacker)),
               BounceRoot(a, d.deflect, damageType, Deflect, victim, Area), last, []);
    assert BounceRoots(current, d, damageType, open, attacker, victim) ==
           BounceRoot(current, d.reflect, damageType, Reflect, victim, On(attacker))
           + BounceRoot(a, d.deflect, damageType, Deflect, victim, Area) + last + [];
  }

  lemma StealHands(current: uint32, total: uint32, m: ModifierSum, damageType: nat, origin: Origin, attacker: nat, victim: nat)
    ensures Hand(StealRoot(current, total, m, damageType, origin, attacker, victim)) == current - Unstolen(current, total, m)
  {
    hide LeechAmount;
    if Active(m) && LeechAmount(total, m) != 0 {
      HandOne(StealRoot(current, total, m, damageType, origin, attacker, victim)[0]);
    }
  }

  lemma StealsHand(total: uint32, s: LeechData, attacker: nat, victim: nat)
    ensures Hand(StealRoots(total, s, attacker, victim)) == total - AfterSteal(total, s)
  {
    hide StealRoot;
    hide Unstolen;
    hide Hand;
    var a := Unstolen(total, total, s.health);
    var b := Unstolen(a, total, s.mana);
    var e := Unstolen(b, total, s.stamina);
    StealHands(total, total, s.health, LIFE_DRAIN, LifeSteal, attacker, victim);
    StealHands(a, total, s.mana, MANA_DRAIN, ManaSteal, attacker, victim);
    StealHands(b, total, s.stamina, UNDEFINED, StaminaSteal, attacker, victim);
    StealHands(e, total, s.soul, UNDEFINED, SoulSteal, attacker, victim);
    FourConcat(StealRoot(total, total, s.health, LIFE_DRAIN, LifeSteal, attacker, victim),
               StealRoot(a, total, s.mana, MANA_DRAIN, ManaSteal, attacker, victim),
               StealRoot(b, total, s.stamina, UNDEFINED, StaminaSteal, attacker, victim),
               StealRoot(e, total, s.soul, UNDEFINED, SoulSteal, attacker, victim));
  }

  lemma LeechHands(total: uint32, m: ModifierSum, origin: Origin, stat: Stat, attacker: nat)
    ensures Hand(LeechRoot(total, m, origin, stat, attacker)) == LeechOf(total, m)
  {
    hide LeechAmount;
    if Active(m) && LeechAmount(total, m) != 0 { HandOne(LeechRoot(total, m, origin, stat, attacker)[0]); }
  }

  lemma LeechesHand(total: uint32, l: LeechData, attacker: nat)
    ensures Hand(LeechRoots(total, l, attacker)) == LeechTotal(total, l)
  {
    hide LeechRoot;
    hide LeechOf;
    hide Hand;
    LeechHands(total, l.health, LifeSteal, Health, attacker);
    LeechHands(total, l.mana, ManaSteal, Mana, attacker);
    LeechHands(total, l.stamina, StaminaSteal, Stamina, attacker);
    LeechHands(total, l.soul, SoulSteal, Soul, attacker);
    FourConcat(LeechRoot(total, l.health, LifeSteal, Health, attacker), LeechRoot(total, l.mana, ManaSteal, Mana, attacker),
               LeechRoot(total, l.stamina, StaminaSteal, Stamina, attacker), LeechRoot(total, l.soul, SoulSteal, Soul, attacker));
  }

  lemma EndHands(c: Combat, plan: Plan, f: Facts, entered: uint32, attacker: nat, victim: nat)
    requires !Stops(c, plan, f, entered)
    ensures var b := BillOf(c, plan, f, entered);
            Hand(EndRoots(c, plan, f, entered, attacker, victim)) == b.stolen + b.leeched
  {
    hide StealRoots;
    hide LeechRoots;
    hide AfterSteal;
    hide LeechTotal;
    hide Parried;
    hide GoesOn;
    hide Pressed;
    var steal, leech, parried := Stealing(c, plan, f, entered), Leeching(c, plan, f, entered), Parried(c, plan, f, entered);
    var applied := AfterSteal(parried, steal);
    StealsHand(parried, steal, attacker, victim);
    LeechesHand(applied, leech, attacker);
    HandOne(BucketRoot(0, 0, true, attacker, victim));
    HandConcat(StealRoots(parried, steal, attacker, victim),
               if f.dealt != 0 && Leeches(c, f.byPlayer, applied) then LeechRoots(applied, leech, attacker) else []);
  }

  // ---------------------------------------------------------------- conservation

  /** All that was handed to spawned combats, resisted and applied is what came in, what criticals and weakness
      added, and what leech heals granted on top. */
  predicate Conserves(c: Combat, plan: Plan, f: Facts, entered: uint32, attacker: nat, victim: nat) {
    var b := BillOf(c, plan, f, entered);
    Hand(StrikeRoots(c, plan, f, entered, attacker, victim)) + b.resisted + b.applied
    == entered + b.critAdded + b.weaknessAdded + b.leeched
  }

  /** A strike conserves damage exactly when conversion and reform hand on as much as they take. */
  lemma ConservedIff(c: Combat, plan: Plan, f: Facts, entered: uint32, attacker: nat, victim: nat)
    ensures var b := BillOf(c, plan, f, entered);
            Conserves(c, plan, f, entered, attacker, victim) <==> b.conversionsHand + b.reformsHand == b.converted + b.reformed
  {
    BillBalances(c, plan, f, entered);
    BillIsHandedOut(c, plan, f, entered, attacker, victim);
    hide BillOf;
    hide StrikeRoots;
  }

  /** What conversions hand on, and what they take, when nothing wraps around. */
  function Asked(on: bool, asked: nat): nat {
    if on then asked else 0
  }

  /** In terms of the modifiers: short of a 32-bit overflow of what they ask for, a strike conserves damage exactly
      when what conversions with a valid type and reforms ask for is what all conversions and reforms ask for,
      each capped at the damage that is there. */
  lemma ConservedByModifiers(c: Combat, plan: Plan, f: Facts, entered: uint32, attacker: nat, victim: nat)
    requires f.attacks ==> SumAll(plan.attack.conversions, entered) < TWO32
    requires Reaches(c, plan, f, entered) ==> SumValid(plan.defense.reforms, Pressed(c, plan, f, entered)) < TWO32
    ensures var before := Pressed(c, plan, f, entered);
            var conversions, reforms := plan.attack.conversions, plan.defense.reforms;
            Conserves(c, plan, f, entered, attacker, victim) <==>
            Asked(f.attacks, SumValid(conversions, entered))
            + Asked(Reaches(c, plan, f, entered), SumValid(reforms, before))
            == Asked(f.attacks, Min(SumAll(conversions, entered), entered))
               + Asked(Reaches(c, plan, f, entered), Min(SumValid(reforms, before), before))
  {
    var before := Pressed(c, plan, f, entered);
    var conversions, reforms := plan.attack.conversions, plan.defense.reforms;
    ConservedIff(c, plan, f, entered, attacker, victim);
    BucketsSum(conversions, entered, Buckets(conversions, entered));
    BucketsSum(reforms, before, Buckets(reforms, before));
    hide Conserves;
    hide SumAll;
    hide SumValid;
    hide SumUpTo;
    hide Pressed;
    hide Stops;
  }

  /** So damage is conserved whenever neither asks for more than there is, and no conversion for an invalid type. */
  lemma ConservedWithinBounds(c: Combat, plan: Plan, f: Facts, entered: uint32, attacker: nat, victim: nat)
    requires f.attacks ==>
               && SumAll(plan.attack.conversions, entered) <= entered
               && forall i :: 0 <= i < |plan.attack.conversions| ==> ValidType(plan.attack.conversions[i])
    requires Reaches(c, plan, f, entered) ==>
               SumValid(plan.defense.reforms, Pressed(c, plan, f, entered)) <= Pressed(c, plan, f, entered)
    ensures Conserves(c, plan, f, entered, attacker, victim)
  {
    SumsOrdered(plan.attack.conversions, entered, 0);
    ConservedByModifiers(c, plan, f, entered, attacker, victim);
  }

  // ---------------------------------------------------------------- strikes that do not conserve damage

  const NO_DEFENSE_SUMS: DefenseSums :=
    DefenseSums(NO_SUM, NO_SUM, NO_SUM, NO_SUM, NO_SUM, NO_SUM, NO_SUM, NO_SUM, NO_SUM)

  /** The plan of a player with one flat conversion, against a victim without modifiers. */
  function FlatConversion(value: nat, toType: nat): Plan {
    Plan(true, false, 0, AttackPlan(true, 0, [Modifier(value, true, toType)], false, NO_SUM, NO_SUM, NO_LEECH, NO_LEECH),
         DefensePlan(false, 0, [], false, NO_DEFENSE_SUMS, false, false, [], []), false)
  }

  lemma {:induction false} NoBuckets(amounts: seq<uint32>, n: nat, reform: bool, attacker: nat, victim: nat)
    requires 1 <= n <= |amounts| && forall k :: 1 <= k < |amounts| ==> amounts[k] == 0
    ensures BucketRoots(amounts, n, reform, attacker, victim) ==
            if amounts[0] == 0 then [] else [BucketRoot(amounts[0], 0, reform, attacker, victim)]
  {
    if n == 1 {
      assert BucketRoots(amounts, 0, reform, attacker, victim) == [];
    } else {
      NoBuckets(amounts, n - 1, reform, attacker, victim);
    }
  }

  lemma OneModifier(m: Modifier, current: uint32, index: nat)
    ensures SumAll([m], current) == ValueOf(m, current)
    ensures SumValid([m], current) == if ValidType(m) then ValueOf(m, current) else 0
    ensures SumFor([m], current, index) == if TrailingZeros(m.toType) == index then ValueOf(m, current) else 0
  {
    assert [m][..0] == [];
  }

  /** A flat conversion of 20 makes a combat of 20 out of a hit of 10, and applies nothing. */
  lemma TwentyOutOfTen(c: Combat, defends: bool, dealt: nat, attacker: nat, victim: nat)
    ensures var plan, f := FlatConversion(20, 1), Facts(true, true, defends, dealt);
            && StrikeRoots(c, plan, f, 10, attacker, victim) ==
               [Root(Combat(1, 20, None, false, true, false, false, false, NoStat), 20, attacker, On(victim))]
            && Stops(c, plan, f, 10) && Applied(c, plan, f, 10) == 0
            && !Conserves(c, plan, f, 10, attacker, victim)
  {
    var plan, f := FlatConversion(20, 1), Facts(true, true, defends, dealt);
    var m := Modifier(20, true, 1);
    assert ValueOf(m, 10) == 20 && TrailingZeros(1) == 0 && ValidType(m);
    forall k | 0 <= k < DAMAGE_TYPES ensures Buckets([m], 10)[k] == if k == 0 then 20 else 0 {
      OneModifier(m, 10, k);
    }
    OneModifier(m, 10, 0);
    NoBuckets(Buckets([m], 10), DAMAGE_TYPES, false, attacker, victim);
    assert BucketRoot(20, 0, false, attacker, victim).combat.damageType == 1;
    assert AfterAttack(c, plan.attack, 10) == 0;
    ConservedByModifiers(c, plan, f, 10, attacker, victim);
  }

  /** A flat conversion of 5 into no valid type takes 5 off a hit of 10 and hands on nothing. */
  lemma FiveIntoNothing(c: Combat, dealt: nat, attacker: nat, victim: nat)
    ensures var plan, f := FlatConversion(5, 0), Facts(true, true, false, dealt);
            && StrikeRoots(c, plan, f, 10, attacker, victim) == []
            && Applied(c, plan, f, 10) == 5
            && !Conserves(c, plan, f, 10, attacker, victim)
  {
    var plan, f := FlatConversion(5, 0), Facts(true, true, false, dealt);
    var m := Modifier(5, true, 0);
    assert ValueOf(m, 10) == 5 && TrailingZeros(0) == 32 && !ValidType(m);
    forall k | 0 <= k < DAMAGE_TYPES ensures Buckets([m], 10)[k] == 0 {
      OneModifier(m, 10, k);
    }
    OneModifier(m, 10, 0);
    NoBuckets(Buckets([m], 10), DAMAGE_TYPES, false, attacker, victim);
    NothingStolen(5, attacker, victim);
    NothingLeeched(5, attacker);
    assert AfterAttack(c, plan.attack, 10) == 5;
    ConservedByModifiers(c, plan, f, 10, attacker, victim);
  }
}
