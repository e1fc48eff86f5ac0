/** Augments: a vector of damage modifiers, attack before defense, with cached counters
    (src/augment.cpp, src/augment.h, src/damagemodifier.h). */
module Augments {
  import opened Options
  import opened Bytes
  import opened PropStreams
  import opened Words

  type uint8 = byte

  // ---------------------------------------------------------------- masks

  const DAMAGE: nat := 2
  const ORIGIN: nat := 3
  const CREATURE: nat := 4
  const RACE: nat := 5
  const NAMED: nat := 6
  const REFORMED: nat := 7
  const CONVERTED: nat := 8
  const HEAL_BOOST: nat := 9

  /** Bit `k` of a mask. */
  predicate Bit(mask: nat, k: nat) {
    if k == 0 then mask % 2 == 1 else Bit(mask / 2, k - 1)
  }

  /** Bitwise or. */
  function Or(a: nat, b: nat): (r: nat) {
    if a == 0 then b else if b == 0 then a
    else (if a % 2 == 1 || b % 2 == 1 then 1 else 0) + 2 * Or(a / 2, b / 2)
  }

  lemma {:induction false} OrBit(a: nat, b: nat, k: nat)
    ensures Bit(Or(a, b), k) <==> Bit(a, k) || Bit(b, k)
    decreases k
  {
    NoBit(k);
    if a == 0 || b == 0 || k == 0 {
    } else {
      OrBit(a / 2, b / 2, k - 1);
    }
  }

  lemma {:induction false} NoBit(k: nat)
    ensures !Bit(0, k)
  {
    if k == 0 {
    } else {
      NoBit(k - 1);
    }
  }

  lemma {:induction false} OrSize(a: nat, b: nat, n: nat, limit: nat)
    requires a < limit && b < limit && limit == Pow2(n)
    ensures Or(a, b) < limit
    decreases n
  {
    if a == 0 || b == 0 {
    } else {
      OrSize(a / 2, b / 2, n - 1, Pow2(n - 1));
    }
  }

  function Pow2(n: nat): nat {
    if n == 0 then 1 else 2 * Pow2(n - 1)
  }

  lemma {:induction false} OrCommutes(a: nat, b: nat)
    ensures Or(a, b) == Or(b, a)
    decreases a
  {
    if a == 0 || b == 0 {
    } else {
      OrCommutes(a / 2, b / 2);
    }
  }

  lemma {:induction false} OrAssociates(a: nat, b: nat, c: nat)
    ensures Or(Or(a, b), c) == Or(a, Or(b, c))
    decreases a
  {
    if a == 0 || b == 0 || c == 0 {
    } else {
      OrAssociates(a / 2, b / 2, c / 2);
      OrHalf(a, b);
      OrHalf(b, c);
    }
  }

  lemma OrHalf(a: nat, b: nat)
    ensures Or(a, b) / 2 == Or(a / 2, b / 2) && (Or(a, b) % 2 == 1 <==> a % 2 == 1 || b % 2 == 1)
  {
  }

  function Or16(a: uint16, b: uint16): uint16 {
    OrFits(a, b);
    Or(a, b)
  }

  lemma OrFits(a: uint16, b: uint16)
    ensures Or(a, b) < 0x1_0000
  {
    assert Pow2(4) == 16;
    assert Pow2(8) == 16 * Pow2(4);
    assert Pow2(12) == 16 * Pow2(8);
    assert Pow2(16) == 16 * Pow2(12);
    OrSize(a, b, 16, 0x1_0000);
  }

  // ---------------------------------------------------------------- modifiers

  const ATTACK: uint8 := 0
  const DEFENSE: uint8 := 1

  /** The name buffer of a modifier: 32 bytes. */
  type NameBuffer = b: seq<byte> | |b| == 32 witness seq(32, i => 0)

  /** A modifier, with the full name that the map of monster names keeps for its guid, if any. */
  datatype Modifier = Modifier(
    guid: nat, damageType: uint16, toDamageType: uint16, value: uint16, filterIndex: uint16,
    stance: uint8, modType: uint8, factor: uint8, chance: uint8, originType: uint8, creatureType: uint8,
    raceType: uint8, trueLeech: bool, nameBuffer: NameBuffer, monsterName: Option<seq<byte>>)

  const ATTACK_FLAG: nat := 0
  const DEFENSE_FLAG: nat := 1
  const CONVERSION: uint8 := 7
  const REGENERATION: uint8 := 8
  const TRANSCENDENCE: uint8 := 11
  const REFORM: uint8 := 9
  const CREATURETYPE_ATTACKABLE: uint8 := 8

  /** `|=` of one flag. */
  function With(mask: uint16, k: nat, yes: bool): uint16
    requires k < 16
  {
    Pow2Fits(k);
    if yes then Or16(mask, Pow2(k)) else mask
  }

  lemma Pow2Fits(k: nat)
    requires k < 16
    ensures Pow2(k) < 0x1_0000
  {
    if k == 0 {
    } else {
      Pow2Fits(k - 1);
    }
    Pow2Grows(k, 15);
    assert Pow2(15) == 0x8000;
  }

  lemma {:induction false} Pow2Grows(k: nat, n: nat)
    requires k <= n
    ensures 0 < Pow2(k) <= Pow2(n)
    decreases n
  {
    if n == 0 {
    } else if k < n {
      Pow2Grows(k, n - 1);
    } else {
      Pow2Grows(k - 1, k - 1);
    }
  }

  lemma {:induction false} SingleBit(j: nat, k: nat)
    ensures Bit(Pow2(j), k) <==> j == k
    decreases j
  {
    if j == 0 {
      if k > 0 { NoBit(k - 1); }
    } else if k == 0 {
    } else {
      SingleBit(j - 1, k - 1);
    }
  }

  lemma WithBit(mask: uint16, j: nat, yes: bool, k: nat)
    requires j < 16
    ensures Bit(With(mask, j, yes), k) <==> Bit(mask, k) || (yes && j == k)
  {
    hide Bit;
    hide Or;
    SingleBit(j, k);
    if yes { OrBit(mask, Pow2(j), k); }
  }

  /** The mask the constructor works out, flag by flag in its order. */
  function FilterIndex(stance: uint8, modType: uint8, combatType: uint16, source: uint8, creatureType: uint8, race: uint8,
                       hasName: bool): uint16
  {
    var attack := stance == ATTACK;
    var f1 := With(0, CONVERTED, attack && modType == CONVERSION);
    var f2 := With(f1, HEAL_BOOST, attack && REGENERATION <= modType <= TRANSCENDENCE);
    var f3 := With(f2, ATTACK_FLAG, attack);
    var f4 := With(f3, REFORMED, !attack && modType == REFORM);
    var f5 := With(f4, DEFENSE_FLAG, !attack);
    var f6 := With(f5, DAMAGE, combatType != 0);
    var f7 := With(f6, ORIGIN, source != 0);
    var f8 := With(f7, RACE, race != 0);
    var f9 := With(f8, CREATURE, creatureType != CREATURETYPE_ATTACKABLE);
    With(f9, NAMED, hasName)
  }

  /** Each flag says one thing about the modifier, and no other bit is ever set. */
  lemma FlagsMean(stance: uint8, modType: uint8, combatType: uint16, source: uint8, creatureType: uint8, race: uint8,
                  hasName: bool, k: nat)
    ensures Bit(FilterIndex(stance, modType, combatType, source, creatureType, race, hasName), k) <==>
            || (k == ATTACK_FLAG && stance == ATTACK)
            || (k == DEFENSE_FLAG && stance != ATTACK)
            || (k == CONVERTED && stance == ATTACK && modType == CONVERSION)
            || (k == HEAL_BOOST && stance == ATTACK && REGENERATION <= modType <= TRANSCENDENCE)
            || (k == REFORMED && stance != ATTACK && modType == REFORM)
            || (k == DAMAGE && combatType != 0) || (k == ORIGIN && source != 0) || (k == RACE && race != 0)
            || (k == CREATURE && creatureType != CREATURETYPE_ATTACKABLE) || (k == NAMED && hasName)
  {
    hide Bit;
    hide With;
    var attack := stance == ATTACK;
    var f1 := With(0, CONVERTED, attack && modType == CONVERSION);
    var f2 := With(f1, HEAL_BOOST, attack && REGENERATION <= modType <= TRANSCENDENCE);
    var f3 := With(f2, ATTACK_FLAG, attack);
    var f4 := With(f3, REFORMED, !attack && modType == REFORM);
    var f5 := With(f4, DEFENSE_FLAG, !attack);
    var f6 := With(f5, DAMAGE, combatType != 0);
    var f7 := With(f6, ORIGIN, source != 0);
    var f8 := With(f7, RACE, race != 0);
    NoBit(k);
    WithBit(0, CONVERTED, attack && modType == CONVERSION, k);
    WithBit(f1, HEAL_BOOST, attack && REGENERATION <= modType <= TRANSCENDENCE, k);
    WithBit(f2, ATTACK_FLAG, attack, k);
    WithBit(f3, REFORMED, !attack && modType == REFORM, k);
    WithBit(f4, DEFENSE_FLAG, !attack, k);
    WithBit(f5, DAMAGE, combatType != 0, k);
    WithBit(f6, ORIGIN, source != 0, k);
    WithBit(f7, RACE, race != 0, k);
    WithBit(f8, CREATURE, creatureType != CREATURETYPE_ATTACKABLE, k);
    WithBit(With(f8, CREATURE, creatureType != CREATURETYPE_ATTACKABLE), NAMED, hasName, k);
  }

  // ---------------------------------------------------------------- what the counters stand for

  /** How many of the modifiers have bit `k` in their mask. */
  function Count(mods: seq<Modifier>, k: nat): nat {
    if mods == [] then 0 else Count(mods[..|mods| - 1], k) + if Bit(mods[|mods| - 1].filterIndex, k) then 1 else 0
  }

  /** The places of the modifiers with bit `k` in their mask. */
  ghost function Marked(mods: seq<Modifier>, k: nat): set<nat> {
    set i: nat | i < |mods| && Bit(mods[i].filterIndex, k)
  }

  /** A count of modifiers is how many places there are with the bit. */
  lemma {:induction false} CountIs(mods: seq<Modifier>, k: nat)
    ensures Count(mods, k) == |Marked(mods, k)|
  {
    hide Bit;
    if mods == [] {
      assert Marked(mods, k) == {};
    } else {
      var front, last := mods[..|mods| - 1], |mods| - 1;
      CountIs(front, k);
      var here := if Bit(mods[last].filterIndex, k) then {last} else {};
      assert Marked(mods, k) == Marked(front, k) + here;
    }
  }

  datatype Tally = Tally(trigger: uint16, damage: uint8, origin: uint8, creature: uint8, race: uint8, reformed: uint8,
                         converted: uint8, named: uint8, healing: uint8)

  /** `n++` on a `uint8_t`. */
  function Next(n: uint8): uint8 {
    if n == 0xFF then 0 else n + 1
  }

  function Inc(n: uint8, yes: bool): uint8 {
    if yes then Next(n) else n
  }

  function Bumped(t: Tally, f: uint16): Tally {
    Tally(Or16(t.trigger, f), Inc(t.damage, Bit(f, DAMAGE)), Inc(t.origin, Bit(f, ORIGIN)), Inc(t.creature, Bit(f, CREATURE)),
          Inc(t.race, Bit(f, RACE)), Inc(t.reformed, Bit(f, REFORMED)), Inc(t.converted, Bit(f, CONVERTED)),
          Inc(t.named, Bit(f, NAMED)), Inc(t.healing, Bit(f, HEAL_BOOST)))
  }

  const NO_TALLY: Tally := Tally(0, 0, 0, 0, 0, 0, 0, 0, 0)

  /** What going over the whole vector comes to. */
  function TallyOf(mods: seq<Modifier>): Tally {
    if mods == [] then NO_TALLY else Bumped(TallyOf(mods[..|mods| - 1]), mods[|mods| - 1].filterIndex)
  }

  /** Each counter is the number of modifiers with its flag, modulo 256, and a bit of the trigger mask
      is set exactly when some modifier has it. */
  lemma {:induction false} TallyMeans(mods: seq<Modifier>, k: nat)
    ensures var t := TallyOf(mods);
            && t.damage == Count(mods, DAMAGE) % 0x100 && t.origin == Count(mods, ORIGIN) % 0x100
            && t.creature == Count(mods, CREATURE) % 0x100 && t.race == Count(mods, RACE) % 0x100
            && t.reformed == Count(mods, REFORMED) % 0x100 && t.converted == Count(mods, CONVERTED) % 0x100
            && t.named == Count(mods, NAMED) % 0x100 && t.healing == Count(mods, HEAL_BOOST) % 0x100
            && (Bit(t.trigger, k) <==> Count(mods, k) > 0)
  {
    hide Bit;
    hide Or;
    hide Inc;
    if mods == [] {
      NoBit(k);
    } else {
      hide Count;
      var front, f := mods[..|mods| - 1], mods[|mods| - 1].filterIndex;
      TallyMeans(front, k);
      CountStep(mods, DAMAGE);
      CountStep(mods, ORIGIN);
      CountStep(mods, CREATURE);
      CountStep(mods, RACE);
      CountStep(mods, REFORMED);
      CountStep(mods, CONVERTED);
      CountStep(mods, NAMED);
      CountStep(mods, HEAL_BOOST);
      CountStep(mods, k);
      OrBit(TallyOf(front).trigger, f, k);
    }
  }

  lemma CountStep(mods: seq<Modifier>, k: nat)
    requires mods != []
    ensures var front, f := mods[..|mods| - 1], mods[|mods| - 1].filterIndex;
            && Count(mods, k) % 0x100 == Inc(Count(front, k) % 0x100, Bit(f, k))
            && (Count(mods, k) > 0 <==> Count(front, k) > 0 || Bit(f, k))
  {
  }

  lemma BumpedCommutes(t: Tally, f: uint16, g: uint16)
    ensures Bumped(Bumped(t, f), g) == Bumped(Bumped(t, g), f)
  {
    hide Bit;
    hide Or;
    OrAssociates(t.trigger, f, g);
    OrAssociates(t.trigger, g, f);
    OrCommutes(f, g);
  }

  /** Where in the vector a modifier is put makes no difference to the tally. */
  lemma {:induction false} TallyInsert(xs: seq<Modifier>, m: Modifier, ys: seq<Modifier>)
    ensures TallyOf(xs + [m] + ys) == Bumped(TallyOf(xs + ys), m.filterIndex)
    decreases |ys|
  {
    hide Bumped;
    if ys == [] {
      assert xs + [m] + ys == xs + [m] && (xs + [m])[..|xs|] == xs && xs + ys == xs;
    } else {
      var front, last := ys[..|ys| - 1], ys[|ys| - 1];
      TallyInsert(xs, m, front);
      assert (xs + [m] + ys)[..|xs + [m] + ys| - 1] == xs + [m] + front;
      assert (xs + ys)[..|xs + ys| - 1] == xs + front;
      BumpedCommutes(TallyOf(xs + front), m.filterIndex, last.filterIndex);
    }
  }

  predicate Uncounted(f: uint16) {
    forall k :: DAMAGE <= k <= HEAL_BOOST ==> !Bit(f, k)
  }

  /** A modifier that is counted and not stored leaves the tally right only if it has none of the eight
      flags and no bit that the mask does not have already. */
  lemma StrayIsHarmless(t: Tally, f: uint16)
    ensures Bumped(t, f) == t <==> Uncounted(f) && Or(t.trigger, f) == t.trigger
  {
    hide Bit;
    hide Or;
    if Bumped(t, f) == t {
      forall k | DAMAGE <= k <= HEAL_BOOST ensures !Bit(f, k) {
        assert k == DAMAGE || k == ORIGIN || k == CREATURE || k == RACE || k == NAMED
               || k == REFORMED || k == CONVERTED || k == HEAL_BOOST;
      }
    }
  }

  // ---------------------------------------------------------------- modifiers as bytes

  const GUID_BYTES: nat := 8
  const MODIFIER_BYTES: nat := 56

  /** The two halves of a guid. */
  function GuidBytes(guid: nat): seq<byte> {
    Le32(guid % 0x1_0000_0000) + Le32(guid / 0x1_0000_0000 % 0x1_0000_0000)
  }

  /** `DamageModifier::serialize`: the memory of the object. */
  function ModifierBytes(m: Modifier): seq<byte> {
    GuidBytes(m.guid) + Le16(m.damageType) + Le16(m.toDamageType) + Le16(m.value) + Le16(m.filterIndex)
    + SmallBytes(m) + m.nameBuffer
  }

  /** The bytes before the first zero. */
  function CString(b: seq<byte>): seq<byte> {
    if b == [] || b[0] == 0 then [] else [b[0]] + CString(b[1..])
  }

  function Monster(filterIndex: uint16, nameBuffer: NameBuffer): Option<seq<byte>> {
    if Bit(filterIndex, NAMED) && nameBuffer[0] != 0 then Some(CString(nameBuffer)) else None
  }

  /** `DamageModifier::deserialize`, given the guid that comes next. */
  function ModifierFrom(b: seq<byte>, guid: nat): Modifier
    requires |b| == MODIFIER_BYTES
  {
    Modifier(guid, FromLe16(b[8..10]), FromLe16(b[10..12]), FromLe16(b[12..14]), FromLe16(b[14..16]),
             b[16], b[17], b[18], b[19], b[20], b[21], b[22], b[23] != 0, b[24..56],
             Monster(FromLe16(b[14..16]), b[24..56]))
  }

  /** A modifier written and read: all of it, under a new guid, with the name that fits in the buffer. */
  function Reborn(m: Modifier, guid: nat): Modifier {
    m.(guid := guid, monsterName := Monster(m.filterIndex, m.nameBuffer))
  }

  lemma ModifierRoundTrip(m: Modifier, guid: nat)
    ensures |ModifierBytes(m)| == MODIFIER_BYTES && ModifierFrom(ModifierBytes(m), guid) == Reborn(m, guid)
  {
    hide Le16;
    hide FromLe16;
    hide Monster;
    hide ModifierBytes;
    Le16RoundTrip(m.damageType);
    Le16RoundTrip(m.toDamageType);
    Le16RoundTrip(m.value);
    Le16RoundTrip(m.filterIndex);
    ModifierSlices(m);
    var b, small := ModifierBytes(m), SmallBytes(m);
    assert forall i :: 0 <= i < 8 ==> b[16 + i] == b[16..24][i];
    assert b[16] == small[0] && b[17] == small[1] && b[18] == small[2] && b[19] == small[3];
    assert b[20] == small[4] && b[21] == small[5] && b[22] == small[6] && b[23] == small[7];
  }

  function SmallBytes(m: Modifier): seq<byte> {
    [m.stance, m.modType, m.factor, m.chance, m.originType, m.creatureType, m.raceType, Flag(m.trueLeech)]
  }

  /** Where in the memory of a modifier its fields are. */
  lemma ModifierSlices(m: Modifier)
    ensures var b := ModifierBytes(m);
            && |b| == MODIFIER_BYTES
            && b[8..10] == Le16(m.damageType) && b[10..12] == Le16(m.toDamageType)
            && b[12..14] == Le16(m.value) && b[14..16] == Le16(m.filterIndex)
            && b[16..24] == SmallBytes(m) && b[24..56] == m.nameBuffer
  {
    hide GuidBytes;
    hide Le16;
    hide SmallBytes;
    Le16RoundTrip(m.damageType);
    Le16RoundTrip(m.toDamageType);
    Le16RoundTrip(m.value);
    Le16RoundTrip(m.filterIndex);
    GuidSize(m.guid);
    SmallSize(m);
    var b := ModifierBytes(m);
    var h1 := GuidBytes(m.guid);
    var h2 := h1 + Le16(m.damageType);
    var h3 := h2 + Le16(m.toDamageType);
    var h4 := h3 + Le16(m.value);
    var h5 := h4 + Le16(m.filterIndex);
    var h6 := h5 + SmallBytes(m);
    Middle(b, h6, m.nameBuffer, []);
    Middle(h6, h5, SmallBytes(m), []);
    Middle(h5, h4, Le16(m.filterIndex), []);
    Middle(h4, h3, Le16(m.value), []);
    Middle(h3, h2, Le16(m.toDamageType), []);
    Middle(h2, h1, Le16(m.damageType), []);
    Prefix(b, h6, m.nameBuffer, 24);
    Prefix(b, h5, SmallBytes(m) + m.nameBuffer, 16);
    Prefix(h5, h4, Le16(m.filterIndex), 14);
    Prefix(h4, h3, Le16(m.value), 12);
    Prefix(h3, h2, Le16(m.toDamageType), 10);
  }

  lemma SmallSize(m: Modifier)
    ensures |SmallBytes(m)| == 8
  {
  }

  lemma Prefix(b: seq<byte>, front: seq<byte>, back: seq<byte>, n: nat)
    requires b == front + back && |front| == n
    ensures forall i, j :: 0 <= i <= j <= n ==> b[i..j] == front[i..j]
  {
  }

  lemma GuidSize(guid: nat)
    ensures |GuidBytes(guid)| == GUID_BYTES
  {
  }

  lemma Middle(b: seq<byte>, front: seq<byte>, x: seq<byte>, back: seq<byte>)
    requires b == front + x + back
    ensures |b| == |front| + |x| + |back| && b[|front|..|front| + |x|] == x
  {
  }

  /** `setCreatureName`: as much of the name as leaves room for a zero. */
  function NameIn(name: seq<byte>): NameBuffer {
    var kept := if |name| > 31 then name[..31] else name;
    kept + seq(32 - |kept|, i => 0)
  }

  /** The name a modifier is given comes back exactly when it is not empty, has no zero in it and is at
      most 31 bytes long. */
  lemma TargetNameSurvives(filterIndex: uint16, name: seq<byte>)
    requires Bit(filterIndex, NAMED)
    ensures Monster(filterIndex, NameIn(name)) == Some(name) <==> name != [] && 0 !in name && |name| <= 31
  {
    hide Bit;
    var kept := if |name| > 31 then name[..31] else name;
    var zeros: seq<byte> := seq(32 - |kept|, i => 0);
    if name != [] && 0 !in name {
      assert 0 !in kept;
      CStringOf(kept, zeros);
    } else if name != [] {
      CStringHasNoZero(NameIn(name));
    }
  }

  lemma {:induction false} CStringOf(kept: seq<byte>, zeros: seq<byte>)
    requires 0 !in kept && zeros != [] && zeros[0] == 0
    ensures CString(kept + zeros) == kept
  {
    if kept == [] {
    } else {
      assert (kept + zeros)[1..] == kept[1..] + zeros;
      CStringOf(kept[1..], zeros);
    }
  }

  lemma {:induction false} CStringHasNoZero(b: seq<byte>)
    ensures 0 !in CString(b)
  {
    if b == [] || b[0] == 0 {
    } else {
      CStringHasNoZero(b[1..]);
    }
  }

  // ---------------------------------------------------------------- whole augments as bytes

  function AllBytes(mods: seq<Modifier>): seq<byte> {
    if mods == [] then [] else AllBytes(mods[..|mods| - 1]) + ModifierBytes(mods[|mods| - 1])
  }

  /** `Augment::serialize`. */
  function AugmentBytes(name: seq<byte>, description: seq<byte>, attacks: seq<Modifier>, defenses: seq<Modifier>): seq<byte>
    requires |attacks| < 0x1_0000_0000 && |defenses| < 0x1_0000_0000
  {
    StringBytes(name) + StringBytes(description) + Le32(|attacks|) + Le32(|defenses|) + AllBytes(attacks + defenses)
  }

  /** The loop of `deserialize`: `n` modifiers, with guids from `guid` on. */
  function ParseModifiers(b: seq<byte>, n: nat, guid: nat): Option<(seq<Modifier>, seq<byte>)>
    decreases n
  {
    if n == 0 then Some(([], b))
    else match ParseModifiers(b, n - 1, guid)
      case None => None
      case Some(done) =>
        match Take(done.1, MODIFIER_BYTES)
        case None => None
        case Some(taken) => Some((done.0 + [ModifierFrom(taken.0, guid + n - 1)], taken.1))
  }

  datatype Parsed = Parsed(name: seq<byte>, description: seq<byte>, mods: seq<Modifier>, rest: seq<byte>)

  /** `Augment::deserialize`, up to the modifiers being added: the count is a sum of two `uint32_t`. */
  function ParseAugment(b: seq<byte>, guid: nat): Option<Parsed> {
    match TakeString(b)
    case None => None
    case Some(name) =>
      match TakeString(name.1)
      case None => None
      case Some(description) =>
        match Take(description.1, 4)
        case None => None
        case Some(attackCount) =>
          match Take(attackCount.1, 4)
          case None => None
          case Some(defenseCount) =>
            match ParseModifiers(defenseCount.1, (FromLe32(attackCount.0) as int + FromLe32(defenseCount.0)) % 0x1_0000_0000, guid)
            case None => None
            case Some(mods) => Some(Parsed(name.0, description.0, mods.0, mods.1))
  }

  function RebornAll(mods: seq<Modifier>, guid: nat): (r: seq<Modifier>)
    ensures |r| == |mods|
  {
    if mods == [] then [] else RebornAll(mods[..|mods| - 1], guid) + [Reborn(mods[|mods| - 1], guid + |mods| - 1)]
  }

  lemma {:induction false} ReadsModifiers(mods: seq<Modifier>, guid: nat, rest: seq<byte>)
    ensures ParseModifiers(AllBytes(mods) + rest, |mods|, guid) == Some((RebornAll(mods, guid), rest))
  {
    hide ModifierBytes;
    hide ModifierFrom;
    if mods == [] {
      assert [] + rest == rest;
    } else {
      var front, last := mods[..|mods| - 1], mods[|mods| - 1];
      ModifierRoundTrip(last, guid + |mods| - 1);
      ReadsModifiers(front, guid, ModifierBytes(last) + rest);
      assert AllBytes(mods) + rest == AllBytes(front) + (ModifierBytes(last) + rest);
      var b := ModifierBytes(last) + rest;
      assert b[..MODIFIER_BYTES] == ModifierBytes(last) && b[MODIFIER_BYTES..] == rest;
    }
  }

  function Kept(s: seq<byte>): seq<byte> {
    if |s| > MAX_STRING then [] else s
  }

  function OfStance(mods: seq<Modifier>, stance: uint8): seq<Modifier> {
    if mods == [] then []
    else OfStance(mods[..|mods| - 1], stance) + if mods[|mods| - 1].stance == stance then [mods[|mods| - 1]] else []
  }

  /** What was written is read: the two strings (unless too long), and all modifiers in their order,
      under new guids, and nothing of what follows. */
  lemma AugmentRoundTrip(name: seq<byte>, description: seq<byte>, attacks: seq<Modifier>, defenses: seq<Modifier>,
                         guid: nat, rest: seq<byte>)
    requires |attacks| + |defenses| < 0x1_0000_0000
    ensures ParseAugment(AugmentBytes(name, description, attacks, defenses) + rest, guid) ==
            Some(Parsed(Kept(name), Kept(description), RebornAll(attacks + defenses, guid), rest))
  {
    hide TakeString;
    hide StringBytes;
    hide Le32;
    hide FromLe32;
    hide AllBytes;
    hide ParseModifiers;
    hide RebornAll;
    var mods := attacks + defenses;
    var b4 := AllBytes(mods) + rest;
    var b3 := Le32(|defenses|) + b4;
    var b2 := Le32(|attacks|) + b3;
    var b1 := StringBytes(description) + b2;
    StringRoundTrip(name, b1);
    StringRoundTrip(description, b2);
    Le32Size();
    LeRoundTrip(|attacks|);
    LeRoundTrip(|defenses|);
    assert b2[..4] == Le32(|attacks|) && b2[4..] == b3;
    assert b3[..4] == Le32(|defenses|) && b3[4..] == b4;
    ReadsModifiers(mods, guid, rest);
    assert AugmentBytes(name, description, attacks, defenses) + rest == StringBytes(name) + b1;
  }

  /** Rebirth keeps masks, stances and order, so the partition and the tally come back as well. */
  lemma {:induction false} RebornKeeps(mods: seq<Modifier>, guid: nat)
    ensures TallyOf(RebornAll(mods, guid)) == TallyOf(mods)
    ensures forall i :: 0 <= i < |mods| ==> RebornAll(mods, guid)[i] == Reborn(mods[i], guid + i)
  {
    hide Bumped;
    hide Monster;
    if mods == [] {
    } else {
      var front := mods[..|mods| - 1];
      RebornKeeps(front, guid);
      assert RebornAll(mods, guid)[..|mods| - 1] == RebornAll(front, guid);
    }
  }

  lemma {:induction false} OfStanceConcat(a: seq<Modifier>, b: seq<Modifier>, stance: uint8)
    ensures OfStance(a + b, stance) == OfStance(a, stance) + OfStance(b, stance)
  {
    if b == [] {
      assert a + b == a;
    } else {
      assert (a + b)[..|a + b| - 1] == a + b[..|b| - 1];
      OfStanceConcat(a, b[..|b| - 1], stance);
    }
  }

  lemma {:induction false} OfOneStance(mods: seq<Modifier>, own: uint8, stance: uint8)
    requires AllStance(mods, own)
    ensures OfStance(mods, stance) == if stance == own then mods else []
  {
    if mods == [] {
    } else {
      OfOneStance(mods[..|mods| - 1], own, stance);
      assert mods == mods[..|mods| - 1] + [mods[|mods| - 1]];
    }
  }

  lemma StanceSplit(attacks: seq<Modifier>, defenses: seq<Modifier>)
    requires AllStance(attacks, ATTACK) && AllStance(defenses, DEFENSE)
    ensures OfStance(attacks + defenses, ATTACK) == attacks && OfStance(attacks + defenses, DEFENSE) == defenses
  {
    OfStanceConcat(attacks, defenses, ATTACK);
    OfStanceConcat(attacks, defenses, DEFENSE);
    OfOneStance(attacks, ATTACK, ATTACK);
    OfOneStance(attacks, ATTACK, DEFENSE);
    OfOneStance(defenses, DEFENSE, ATTACK);
    OfOneStance(defenses, DEFENSE, DEFENSE);
  }

  // ---------------------------------------------------------------- the class

  predicate AllStance(mods: seq<Modifier>, stance: uint8) {
    forall i :: 0 <= i < |mods| ==> mods[i].stance == stance
  }

  function RemoveFirst(mods: seq<Modifier>, guid: nat): seq<Modifier> {
    if mods == [] then [] else if mods[0].guid == guid then mods[1..] else [mods[0]] + RemoveFirst(mods[1..], guid)
  }

  predicate HasGuid(mods: seq<Modifier>, guid: nat) {
    exists i :: 0 <= i < |mods| && mods[i].guid == guid
  }

  lemma {:induction false} RemoveFirstAt(mods: seq<Modifier>, guid: nat, at: nat)
    requires at < |mods| && mods[at].guid == guid && !HasGuid(mods[..at], guid)
    ensures RemoveFirst(mods, guid) == mods[..at] + mods[at + 1..]
  {
    if at == 0 {
    } else {
      assert mods[..at][0].guid != guid;
      if HasGuid(mods[1..][..at - 1], guid) {
        var i :| 0 <= i < at - 1 && mods[1..][..at - 1][i].guid == guid;
        assert mods[..at][i + 1].guid == guid;
      }
      RemoveFirstAt(mods[1..], guid, at - 1);
    }
  }

  lemma {:induction false} RemoveFirstNone(mods: seq<Modifier>, guid: nat)
    requires !HasGuid(mods, guid)
    ensures RemoveFirst(mods, guid) == mods
  {
    if mods == [] {
    } else {
      assert forall i :: 0 <= i < |mods| - 1 ==> mods[1..][i] == mods[i + 1];
      RemoveFirstNone(mods[1..], guid);
    }
  }

  class Augment {
    var name: seq<byte>
    var description: seq<byte>
    var modifiers: seq<Modifier>
    var attackCount: nat
    var triggerIndex: uint16
    var damageCount: uint8
    var originCount: uint8
    var creatureCount: uint8
    var raceCount: uint8
    var reformedCount: uint8
    var convertedCount: uint8
    var namedCount: uint8
    var healingCount: uint8

    ghost function Counters(): Tally
      reads this
    {
      Tally(triggerIndex, damageCount, originCount, creatureCount, raceCount, reformedCount, convertedCount,
            namedCount, healingCount)
    }

    /** The attack modifiers come first, the defense modifiers after them. */
    ghost predicate Partitioned()
      reads this
    {
      && attackCount <= |modifiers|
      && AllStance(modifiers[..attackCount], ATTACK)
      && AllStance(modifiers[attackCount..], DEFENSE)
    }

    /** The counters and the mask are what `rebuild_triggers` would make of the vector. */
    ghost predicate Counted()
      reads this
    {
      Counters() == TallyOf(modifiers)
    }

    ghost predicate Valid()
      reads this
    {
      Partitioned() && Counted()
    }

    ghost function Attacks(): seq<Modifier>
      requires attackCount <= |modifiers|
      reads this
    {
      modifiers[..attackCount]
    }

    ghost function Defenses(): seq<Modifier>
      requires attackCount <= |modifiers|
      reads this
    {
      modifiers[attackCount..]
    }

    /** The counters by their own names, and the parts: each counter is the number of modifiers with its bit, modulo 256,
        and a bit of the mask is set exactly if some modifier has it. */
    lemma CountersMean()
      requires Valid()
      ensures damageCount == |Marked(modifiers, 2)| % 0x100 && originCount == |Marked(modifiers, 3)| % 0x100
      ensures creatureCount == |Marked(modifiers, 4)| % 0x100 && raceCount == |Marked(modifiers, 5)| % 0x100
      ensures namedCount == |Marked(modifiers, 6)| % 0x100 && reformedCount == |Marked(modifiers, 7)| % 0x100
      ensures convertedCount == |Marked(modifiers, 8)| % 0x100 && healingCount == |Marked(modifiers, 9)| % 0x100
      ensures forall k: nat :: Bit(triggerIndex, k) <==> exists i :: 0 <= i < |modifiers| && Bit(modifiers[i].filterIndex, k)
      ensures forall i :: 0 <= i < |modifiers| ==> modifiers[i].stance == if i < attackCount then 0 else 1
    {
      hide TallyOf;
      hide Bit;
      hide Count;
      forall k: nat
        ensures Count(modifiers, k) == |Marked(modifiers, k)|
        ensures Bit(triggerIndex, k) <==> exists i :: 0 <= i < |modifiers| && Bit(modifiers[i].filterIndex, k)
      {
        TallyMeans(modifiers, k);
        CountIs(modifiers, k);
        SomeMarked(modifiers, k);
      }
      TallyMeans(modifiers, 0);
      forall i | attackCount <= i < |modifiers| ensures modifiers[i].stance == DEFENSE {
        assert modifiers[attackCount..][i - attackCount] == modifiers[i];
      }
      forall i | 0 <= i < attackCount ensures modifiers[i].stance == ATTACK {
        assert modifiers[..attackCount][i] == modifiers[i];
      }
    }

    static lemma SomeMarked(mods: seq<Modifier>, k: nat)
      ensures |Marked(mods, k)| > 0 <==> exists i :: 0 <= i < |mods| && Bit(mods[i].filterIndex, k)
    {
      hide Bit;
      if i :| 0 <= i < |mods| && Bit(mods[i].filterIndex, k) {
        assert i in Marked(mods, k);
      } else {
        assert Marked(mods, k) == {};
      }
    }

    constructor (name: seq<byte>, description: seq<byte>)
      ensures Valid() && modifiers == [] && this.name == name && this.description == description
    {
      this.name, this.description := name, description;
      modifiers, attackCount, triggerIndex := [], 0, 0;
      damageCount, originCount, creatureCount, raceCount := 0, 0, 0, 0;
      reformedCount, convertedCount, namedCount, healingCount := 0, 0, 0, 0;
    }

    /** The mask joins the trigger mask, and each counter whose flag it has goes up by one. */
    method Bump(filters: uint16)
      modifies `triggerIndex, `damageCount, `originCount, `creatureCount, `raceCount, `reformedCount, `convertedCount,
               `namedCount, `healingCount
      ensures Counters() == Bumped(old(Counters()), filters)
    {
      hide Bit;
      hide Inc;
      hide Or16;
      triggerIndex := Or16(triggerIndex, filters);
      damageCount, originCount := Inc(damageCount, Bit(filters, DAMAGE)), Inc(originCount, Bit(filters, ORIGIN));
      creatureCount, raceCount := Inc(creatureCount, Bit(filters, CREATURE)), Inc(raceCount, Bit(filters, RACE));
      convertedCount, reformedCount := Inc(convertedCount, Bit(filters, CONVERTED)), Inc(reformedCount, Bit(filters, REFORMED));
      namedCount, healingCount := Inc(namedCount, Bit(filters, NAMED)), Inc(healingCount, Bit(filters, HEAL_BOOST));
    }

    /** `addAttackModifier`: in front of the defense modifiers. */
    method AddAttackModifier(m: Modifier)
      requires Partitioned() && m.stance == ATTACK
      modifies `modifiers, `attackCount
      ensures Partitioned() && Attacks() == old(Attacks()) + [m] && Defenses() == old(Defenses())
      ensures TallyOf(modifiers) == Bumped(TallyOf(old(modifiers)), m.filterIndex)
    {
      hide Bumped;
      hide TallyOf;
      ghost var attacks, defenses := Attacks(), Defenses();
      TallyInsert(attacks, m, defenses);
      assert attacks + defenses == modifiers;
      modifiers := modifiers[..attackCount] + [m] + modifiers[attackCount..];
      attackCount := attackCount + 1;
      assert modifiers[..attackCount] == attacks + [m] && modifiers[attackCount..] == defenses;
    }

    /** `addDefenseModifier`: to the back. */
    method AddDefenseModifier(m: Modifier)
      requires Partitioned() && m.stance == DEFENSE
      modifies `modifiers
      ensures Partitioned() && Attacks() == old(Attacks()) && Defenses() == old(Defenses()) + [m]
      ensures TallyOf(modifiers) == Bumped(TallyOf(old(modifiers)), m.filterIndex)
    {
      hide Bumped;
      hide TallyOf;
      ghost var attacks, defenses := Attacks(), Defenses();
      TallyInsert(modifiers, m, []);
      assert modifiers + [m] + [] == modifiers + [m] && modifiers + [] == modifiers;
      modifiers := modifiers + [m];
      assert modifiers[..attackCount] == attacks && modifiers[attackCount..] == defenses + [m];
    }

    /** `addModifier`. One of a third stance is counted and then dropped: the counters then no longer
        say what the vector holds. */
    method AddModifier(m: Modifier)
      requires Partitioned()
      modifies this
      ensures Partitioned() && name == old(name) && description == old(description)
      ensures Attacks() == if m.stance == ATTACK then old(Attacks()) + [m] else old(Attacks())
      ensures Defenses() == if m.stance == DEFENSE then old(Defenses()) + [m] else old(Defenses())
      ensures Counters() == Bumped(old(Counters()), m.filterIndex)
      ensures old(Counted()) && m.stance in {ATTACK, DEFENSE} ==> Counted()
      ensures old(Counted()) && m.stance !in {ATTACK, DEFENSE} ==>
                (Counted() <==> Bumped(old(Counters()), m.filterIndex) == old(Counters()))
    {
      hide Bumped;
      hide TallyOf;
      hide AllStance;
      Bump(m.filterIndex);
      if m.stance == ATTACK {
        AddAttackModifier(m);
      } else if m.stance == DEFENSE {
        AddDefenseModifier(m);
      }
    }

    /** `rebuild_triggers`. */
    method RebuildTriggers()
      modifies `triggerIndex, `damageCount, `originCount, `creatureCount, `raceCount, `reformedCount, `convertedCount,
               `namedCount, `healingCount
      ensures Counted()
    {
      hide Bumped;
      triggerIndex := 0;
      damageCount, originCount, creatureCount, raceCount := 0, 0, 0, 0;
      reformedCount, convertedCount, namedCount, healingCount := 0, 0, 0, 0;
      for i := 0 to |modifiers|
        invariant Counters() == TallyOf(modifiers[..i])
      {
        assert modifiers[..i + 1][..i] == modifiers[..i];
        Bump(modifiers[i].filterIndex);
      }
      assert modifiers[..|modifiers|] == modifiers;
    }

    /** `find_if` by guid between two places of the vector. */
    method FindGuid(from: nat, to: nat, guid: nat) returns (at: nat)
      requires from <= to <= |modifiers|
      ensures from <= at <= to && forall i :: from <= i < at ==> modifiers[i].guid != guid
      ensures at < to ==> modifiers[at].guid == guid
    {
      at := from;
      while at < to
        invariant from <= at <= to && forall i :: from <= i < at ==> modifiers[i].guid != guid
      {
        if modifiers[at].guid == guid { return; }
        at := at + 1;
      }
    }

    /** `erase` of one place, which keeps the order of the rest. */
    method Erase(at: nat)
      requires Partitioned() && at < |modifiers|
      modifies `modifiers, `attackCount
      ensures Partitioned()
      ensures var k := at - |old(Attacks())|;
              if k < 0 then Attacks() == old(Attacks())[..at] + old(Attacks())[at + 1..] && Defenses() == old(Defenses())
              else Attacks() == old(Attacks()) && Defenses() == old(Defenses())[..k] + old(Defenses())[k + 1..]
    {
      ghost var attacks, defenses := Attacks(), Defenses();
      assert modifiers == attacks + defenses;
      if at < attackCount {
        modifiers := modifiers[..at] + modifiers[at + 1..];
        attackCount := attackCount - 1;
        assert modifiers[..attackCount] == attacks[..at] + attacks[at + 1..];
        assert modifiers[attackCount..] == defenses;
      } else {
        ghost var k := at - attackCount;
        modifiers := modifiers[..at] + modifiers[at + 1..];
        assert modifiers[..attackCount] == attacks;
        assert modifiers[attackCount..] == defenses[..k] + defenses[k + 1..];
      }
    }

    /** `removeModifier`: the first attack modifier with that guid, or else the first defense modifier
        with it; and the counters are worked out anew in any case. */
    method RemoveModifier(guid: nat)
      requires Partitioned()
      modifies this
      ensures Valid() && name == old(name) && description == old(description)
      ensures Attacks() == RemoveFirst(old(Attacks()), guid)
      ensures Defenses() == if HasGuid(old(Attacks()), guid) then old(Defenses()) else RemoveFirst(old(Defenses()), guid)
    {
      hide TallyOf;
      hide RemoveFirst;
      hide AllStance;
      ghost var attacks, defenses := Attacks(), Defenses();
      var at := FindGuid(0, attackCount, guid);
      if at < attackCount {
        assert attacks[at].guid == guid;
        RemoveFirstAt(attacks, guid, at);
        Erase(at);
        RebuildTriggers();
        return;
      }
      RemoveFirstNone(attacks, guid);
      at := FindGuid(attackCount, |modifiers|, guid);
      if at < |modifiers| {
        ghost var k := at - attackCount;
        assert forall i :: 0 <= i < k ==> defenses[i].guid == modifiers[attackCount + i].guid;
        RemoveFirstAt(defenses, guid, k);
        Erase(at);
      } else {
        assert forall i :: 0 <= i < |defenses| ==> defenses[i].guid == modifiers[attackCount + i].guid;
        RemoveFirstNone(defenses, guid);
      }
      RebuildTriggers();
    }

    /** `serialize`. */
    method Serialize(out: PropWriteStream)
      requires Partitioned() && |modifiers| < 0x1_0000_0000
      modifies out
      ensures out.buffer == old(out.buffer) + AugmentBytes(name, description, Attacks(), Defenses())
    {
      hide StringBytes;
      hide Le32;
      hide ModifierBytes;
      hide AllStance;
      ghost var b := out.buffer;
      out.WriteString(name);
      out.WriteString(description);
      out.Write32(attackCount);
      out.Write32(|modifiers| - attackCount);
      ghost var head := StringBytes(name) + StringBytes(description) + Le32(attackCount) + Le32(|modifiers| - attackCount);
      assert out.buffer == b + head;
      for i := 0 to |modifiers|
        invariant out.buffer == b + head + AllBytes(modifiers[..i])
      {
        assert modifiers[..i + 1][..i] == modifiers[..i];
        out.WriteRaw(ModifierBytes(modifiers[i]));
      }
      assert modifiers[..|modifiers|] == modifiers == Attacks() + Defenses();
      assert b + head + AllBytes(modifiers) == b + (head + AllBytes(modifiers));
    }

    /** `deserialize`: each modifier read is added, and so sorted by its stance and counted. */
    static method Deserialize(stream: PropStream, guids: GuidSource) returns (a: Augment?)
      requires stream.Valid()
      modifies stream`p, guids
      ensures stream.Valid() && (a != null ==> fresh(a))
      ensures match ParseAugment(old(stream.Rest()), old(guids.next))
              case None => a == null
              case Some(p) =>
                && a != null && a.Partitioned() && stream.Rest() == p.rest
                && a.name == p.name && a.description == p.description
                && a.Attacks() == OfStance(p.mods, ATTACK) && a.Defenses() == OfStance(p.mods, DEFENSE)
                && a.Counters() == TallyOf(p.mods) && guids.next == old(guids.next) + |p.mods|
                && (OnlyKnown(p.mods) ==> a.Valid())
    {
      hide TakeString;
      hide FromLe32;
      hide ParseModifiers;
      hide OfStance;
      hide TallyOf;
      hide OnlyKnown;
      hide Augment.Partitioned;
      hide Augment.Counted;
      var success, name := stream.ReadString();
      if !success { return null; }
      var victory, description := stream.ReadString();
      if !victory { return null; }
      var ok, bytes := stream.Read(4);
      if !ok { return null; }
      var attackCount := FromLe32(bytes);
      ok, bytes := stream.Read(4);
      if !ok { return null; }
      var defenseCount := FromLe32(bytes);
      a := ReadModifiers(stream, guids, name, description, (attackCount as int + defenseCount) % 0x1_0000_0000);
    }

    /** The loop of `deserialize`. */
    static method ReadModifiers(stream: PropStream, guids: GuidSource, name: seq<byte>, description: seq<byte>, n: nat)
      returns (a: Augment?)
      requires stream.Valid()
      modifies stream`p, guids
      ensures stream.Valid() && (a != null ==> fresh(a))
      ensures match ParseModifiers(old(stream.Rest()), n, old(guids.next))
              case None => a == null
              case Some(p) =>
                && a != null && a.Partitioned() && stream.Rest() == p.1
                && a.name == name && a.description == description
                && a.Attacks() == OfStance(p.0, ATTACK) && a.Defenses() == OfStance(p.0, DEFENSE)
                && a.Counters() == TallyOf(p.0) && guids.next == old(guids.next) + |p.0|
                && (OnlyKnown(p.0) ==> a.Valid())
    {
      hide ParseModifiers;
      hide OfStance;
      hide TallyOf;
      hide Bumped;
      hide OnlyKnown;
      hide ModifierFrom;
      hide AllStance;
      ghost var b, guid := stream.Rest(), guids.next;
      ghost var mods: seq<Modifier> := [];
      NothingParsed(b, guid);
      var augment := new Augment(name, description);
      for i := 0 to n
        invariant stream.Valid() && fresh(augment) && augment.Partitioned()
        invariant ParseModifiers(b, i, guid) == Some((mods, stream.Rest()))
        invariant |mods| == i && guids.next == guid + i
        invariant augment.name == name && augment.description == description
        invariant augment.Attacks() == OfStance(mods, ATTACK) && augment.Defenses() == OfStance(mods, DEFENSE)
        invariant augment.Counters() == TallyOf(mods) && (OnlyKnown(mods) ==> augment.Counted())
      {
        ParseStep(b, i, guid);
        var ok, v := stream.Read(MODIFIER_BYTES);
        if !ok {
          ParseFails(b, i + 1, n, guid);
          return null;
        }
        var m := ModifierFrom(v, guids.next);
        guids.next := guids.next + 1;
        augment.AddModifier(m);
        ModsStep(mods, m);
        mods := mods + [m];
      }
      a := augment;
    }
  }

  /** Where the next guid comes from. */
  class GuidSource {
    var next: nat
  }

  predicate OnlyKnown(mods: seq<Modifier>) {
    forall i :: 0 <= i < |mods| ==> mods[i].stance in {ATTACK, DEFENSE}
  }

  lemma NothingParsed(b: seq<byte>, guid: nat)
    ensures ParseModifiers(b, 0, guid) == Some(([], b)) && TallyOf([]) == NO_TALLY
    ensures OfStance([], ATTACK) == [] && OfStance([], DEFENSE) == [] && OnlyKnown([])
  {
  }

  lemma ParseStep(b: seq<byte>, i: nat, guid: nat)
    requires ParseModifiers(b, i, guid).Some?
    ensures var done := ParseModifiers(b, i, guid).value;
            ParseModifiers(b, i + 1, guid) ==
            match Take(done.1, MODIFIER_BYTES)
            case None => None
            case Some(taken) => Some((done.0 + [ModifierFrom(taken.0, guid + i)], taken.1))
  {
  }

  lemma {:induction false} ParseFails(b: seq<byte>, i: nat, n: nat, guid: nat)
    requires i <= n && ParseModifiers(b, i, guid).None?
    ensures ParseModifiers(b, n, guid).None?
    decreases n
  {
    if i == n {
    } else {
      ParseFails(b, i, n - 1, guid);
    }
  }

  lemma ModsStep(mods: seq<Modifier>, m: Modifier)
    ensures OfStance(mods + [m], ATTACK) == OfStance(mods, ATTACK) + if m.stance == ATTACK then [m] else []
    ensures OfStance(mods + [m], DEFENSE) == OfStance(mods, DEFENSE) + if m.stance == DEFENSE then [m] else []
    ensures TallyOf(mods + [m]) == Bumped(TallyOf(mods), m.filterIndex)
    ensures OnlyKnown(mods + [m]) <==> OnlyKnown(mods) && m.stance in {ATTACK, DEFENSE}
  {
    hide Bumped;
    assert (mods + [m])[..|mods|] == mods;
    if OnlyKnown(mods + [m]) {
      assert forall i :: 0 <= i < |mods| ==> (mods + [m])[i] == mods[i];
      assert (mods + [m])[|mods|] == m;
    }
  }
}
